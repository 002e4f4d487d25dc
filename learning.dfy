/** The learning loop (src/backend/learning_loop/learning.py): reviewers'
    format corrections are appended to a store, and the newest few for a
    document type are rendered as rules for the extraction prompt. The
    document store is an in-memory append-only log whose clock stands in
    for the server timestamp. */
module Learning {

  /** One document of the `learning_examples` collection. */
  datatype Record = Record(docType: string, field: string, badExample: string, goodExample: string, timestamp: nat)

  /** Timestamps strictly increase along the log. */
  predicate Increasing(log: seq<Record>) {
    forall i, j :: 0 <= i < j < |log| ==> log[i].timestamp < log[j].timestamp
  }

  /** The `learning_examples` collection. */
  class CorrectionStore {
    var records: seq<Record>
    var clock: nat

    /** Every record was stamped by the clock, which has moved on since. */
    ghost predicate Valid()
      reads this
    {
      && Increasing(records)
      && forall i :: 0 <= i < |records| ==> records[i].timestamp < clock
    }

    constructor()
      ensures records == []
      ensures Valid()
    {
      records := [];
      clock := 0;
    }

    /** `add` with a server timestamp: appends the record stamped with the
        current time; the clock moves forward. */
    method Add(docType: string, field: string, badExample: string, goodExample: string)
      requires Valid()
      modifies this
      ensures Valid()
      ensures records == old(records) + [Record(docType, field, badExample, goodExample, old(clock))]
      ensures clock > old(clock)
    {
      records := records + [Record(docType, field, badExample, goodExample, clock)];
      clock := clock + 1;
    }
  }

  // ---------------------------------------------------------------------
  // The query: where doc_type == t, newest first, at most `limit`

  /** The records of one document type, in log order. */
  function Filter(log: seq<Record>, docType: string): (r: seq<Record>)
    ensures |r| <= |log|
    ensures forall x :: x in r <==> x in log && x.docType == docType
    decreases |log|
  {
    if log == [] then []
    else
      var last := log[|log| - 1];
      Filter(log[..|log| - 1], docType) + (if last.docType == docType then [last] else [])
  }

  function Reverse(s: seq<Record>): (r: seq<Record>)
    ensures |r| == |s|
    ensures forall i :: 0 <= i < |s| ==> r[i] == s[|s| - 1 - i]
    decreases |s|
  {
    if s == [] then [] else [s[|s| - 1]] + Reverse(s[..|s| - 1])
  }

  function Take(s: seq<Record>, limit: nat): (r: seq<Record>)
    ensures |r| == if |s| <= limit then |s| else limit
    ensures r <= s
  {
    if |s| <= limit then s else s[..limit]
  }

  /** `where(doc_type == t).order_by(timestamp, DESCENDING).limit(limit)`
      over a log whose timestamps increase: the newest first is the log
      order reversed. At most `limit` records, all from the log and of the
      asked type. */
  function Query(log: seq<Record>, docType: string, limit: nat): (r: seq<Record>)
    ensures |r| <= limit
    ensures forall i :: 0 <= i < |r| ==> r[i] in log && r[i].docType == docType
  {
    var f := Filter(log, docType);
    var rev := Reverse(f);
    assert forall i :: 0 <= i < |rev| ==> rev[i] in f;
    Take(rev, limit)
  }

  const RulesPerPrompt: nat := 3

  /** The fixed text around the three values of a rule line. */
  const RulePrefix := "- FORMATTING RULE for '"
  const RuleMiddle := "': previously, the user corrected the format '"
  const RuleTo := "' to '"
  const RuleSuffix := "'. Ensure you apply a similar FORMAT pattern (e.g. hyphens, spacing) to the data you see now, but DO NOT copy the values." + "\n"

  /** The rule line rendered for one stored correction: it starts with the
      rule marker and ends with a line break. */
  function RuleLine(r: Record): (line: string)
    ensures RulePrefix <= line
    ensures line != [] && line[|line| - 1] == '\n'
  {
    RulePrefix + (r.field + RuleMiddle + r.badExample + RuleTo + r.goodExample + RuleSuffix)
  }

  /** The lines `line` renders for `rs`, concatenated in order. */
  function Render(rs: seq<Record>, line: Record -> string): string
    decreases |rs|
  {
    if rs == [] then "" else Render(rs[..|rs| - 1], line) + line(rs[|rs| - 1])
  }

  /** The rule lines of `rs`, in order. */
  function RuleLines(rs: seq<Record>): string {
    Render(rs, RuleLine)
  }

  /** What `get_learning_context` returns for a log: the empty string
      exactly when no correction of the type was stored. */
  function LearningContext(log: seq<Record>, docType: string): (r: string)
    ensures r == "" <==> forall x :: x in log ==> x.docType != docType
  {
    var f := Filter(log, docType);
    var q := Query(log, docType, RulesPerPrompt);
    RenderEmptyIff(q, RuleLine);
    assert f != [] ==> f[0] in f;
    RuleLines(q)
  }

  /** `LearningLoop`: the two operations over the store. */
  class LearningLoop {
    const db: CorrectionStore

    constructor(db: CorrectionStore)
      ensures this.db == db
    {
      this.db := db;
    }

    /** `save_learning_example`: nothing when the model's value is the
        reviewer's; otherwise exactly one record appended, stamped with the
        current time. */
    method SaveLearningExample(docType: string, fieldName: string, aiValue: string, humanValue: string)
      requires db.Valid()
      modifies db
      ensures db.Valid()
      ensures aiValue == humanValue ==> db.records == old(db.records) && db.clock == old(db.clock)
      ensures aiValue != humanValue ==>
                db.records == old(db.records) + [Record(docType, fieldName, aiValue, humanValue, old(db.clock))]
    {
      if aiValue == humanValue {
        return;
      }
      db.Add(docType, fieldName, aiValue, humanValue);
    }

    /** `get_learning_context`: one rule line per queried record, appended
        in query order. */
    method GetLearningContext(docType: string) returns (examplesText: string)
      ensures examplesText == LearningContext(db.records, docType)
    {
      var docs := Query(db.records, docType, RulesPerPrompt);
      examplesText := "";
      for i := 0 to |docs|
        invariant examplesText == RuleLines(docs[..i])
      {
        assert docs[..i + 1][..i] == docs[..i];
        examplesText := examplesText + RuleLine(docs[i]);
      }
      assert docs[..|docs|] == docs;
    }
  }

  // ---------------------------------------------------------------------
  // Properties of the query and of the context

  lemma {:induction false} FilterIncreasing(log: seq<Record>, docType: string)
    requires Increasing(log)
    ensures Increasing(Filter(log, docType))
    decreases |log|
  {
    if log != [] {
      var init, last := log[..|log| - 1], log[|log| - 1];
      FilterIncreasing(init, docType);
      forall x | x in Filter(init, docType)
        ensures x.timestamp < last.timestamp
      {
        var i :| 0 <= i < |init| && init[i] == x;
        assert log[i] == x;
      }
    }
  }

  /** The query returns records of the asked type only, newest first, as
      many as there are up to the limit, and no record it leaves out is
      newer than one it returns. */
  lemma QueryIsNewest(log: seq<Record>, docType: string, limit: nat)
    requires Increasing(log)
    ensures var r := Query(log, docType, limit);
            && (forall i :: 0 <= i < |r| ==> r[i] in log && r[i].docType == docType)
            && (forall i, j :: 0 <= i < j < |r| ==> r[i].timestamp > r[j].timestamp)
            && |r| == (if |Filter(log, docType)| <= limit then |Filter(log, docType)| else limit)
            && (forall x :: x in log && x.docType == docType && x !in r ==>
                  forall i :: 0 <= i < |r| ==> x.timestamp < r[i].timestamp)
  {
    QueryDescending(log, docType, limit);
    QueryLeavesOlder(log, docType, limit);
  }

  lemma QueryDescending(log: seq<Record>, docType: string, limit: nat)
    requires Increasing(log)
    ensures var r := Query(log, docType, limit);
            forall i, j :: 0 <= i < j < |r| ==> r[i].timestamp > r[j].timestamp
  {
    var f := Filter(log, docType);
    FilterIncreasing(log, docType);
    var rev := Reverse(f);
    var r := Query(log, docType, limit);
    forall i, j | 0 <= i < j < |r|
      ensures r[i].timestamp > r[j].timestamp
    {
      assert r[i] == f[|f| - 1 - i] && r[j] == f[|f| - 1 - j];
    }
  }

  lemma QueryLeavesOlder(log: seq<Record>, docType: string, limit: nat)
    requires Increasing(log)
    ensures var r := Query(log, docType, limit);
            forall x :: x in log && x.docType == docType && x !in r ==>
              forall i :: 0 <= i < |r| ==> x.timestamp < r[i].timestamp
  {
    var f := Filter(log, docType);
    FilterIncreasing(log, docType);
    var r := Query(log, docType, limit);
    forall x, i | x in log && x.docType == docType && x !in r && 0 <= i < |r|
      ensures x.timestamp < r[i].timestamp
    {
      assert x in f;
      NewestFirstLeavesOlder(f, limit, x, i);
    }
  }

  /** Taking the newest `limit` of an increasing sequence leaves out only
      records older than every one taken. */
  lemma NewestFirstLeavesOlder(f: seq<Record>, limit: nat, x: Record, i: nat)
    requires Increasing(f) && x in f
    requires x !in Take(Reverse(f), limit) && i < |Take(Reverse(f), limit)|
    ensures x.timestamp < Take(Reverse(f), limit)[i].timestamp
  {
    var rev := Reverse(f);
    var r := Take(rev, limit);
    var k :| 0 <= k < |f| && f[k] == x;
    assert rev[|f| - 1 - k] == x;
    assert |f| - 1 - k >= |r|;
    assert r[i] == rev[i] == f[|f| - 1 - i];
  }

  /** Fewer matching records than the limit: the query returns all of them. */
  lemma QueryTakesAllWhenFew(log: seq<Record>, docType: string, limit: nat)
    requires |Filter(log, docType)| <= limit
    ensures forall x :: x in Query(log, docType, limit) <==> x in log && x.docType == docType
  {
    var f := Filter(log, docType);
    var rev := Reverse(f);
    forall x | x in f ensures x in rev {
      var k :| 0 <= k < |f| && f[k] == x;
      assert rev[|f| - 1 - k] == x;
    }
  }

  /** A record of another type changes neither the query nor the context. */
  lemma OtherTypesIgnored(log: seq<Record>, rec: Record, docType: string)
    requires rec.docType != docType
    ensures Query(log + [rec], docType, RulesPerPrompt) == Query(log, docType, RulesPerPrompt)
    ensures LearningContext(log + [rec], docType) == LearningContext(log, docType)
  {
    assert (log + [rec])[..|log|] == log;
  }

  lemma {:induction false} FilterIdempotent(log: seq<Record>, docType: string)
    ensures Filter(Filter(log, docType), docType) == Filter(log, docType)
    decreases |log|
  {
    if log != [] {
      var init, last := log[..|log| - 1], log[|log| - 1];
      FilterIdempotent(init, docType);
      var fi := Filter(init, docType);
      if last.docType == docType {
        assert Filter(log, docType) == fi + [last];
        assert (fi + [last])[..|fi|] == fi;
      } else {
        assert Filter(log, docType) == fi;
      }
    }
  }

  /** Only the records of the asked type matter. */
  lemma ContextOnlyOfType(log: seq<Record>, docType: string)
    ensures LearningContext(Filter(log, docType), docType) == LearningContext(log, docType)
  {
    FilterIdempotent(log, docType);
  }

  lemma {:induction false} RenderCons(x: Record, rest: seq<Record>, line: Record -> string)
    ensures Render([x] + rest, line) == line(x) + Render(rest, line)
    decreases |rest|
  {
    if rest == [] {
      assert [x] + rest == [x];
      assert [x][..0] == [];
    } else {
      var init := rest[..|rest| - 1];
      assert ([x] + rest)[..|rest|] == [x] + init;
      RenderCons(x, init, line);
    }
  }

  /** Lines that are never empty render to the empty string only for no
      records. */
  lemma {:induction false} RenderEmptyIff(rs: seq<Record>, line: Record -> string)
    requires forall r :: line(r) != ""
    ensures Render(rs, line) == "" <==> rs == []
    decreases |rs|
  {
    if rs != [] {
      assert |line(rs[|rs| - 1])| > 0;
    }
  }

  /** Read after write: right after a correction is stored for a type, the
      context for that type starts with its rule line, followed by the rules
      of the two newest earlier corrections of that type. In a store, whose
      log increases, that record is newer than every earlier one of its
      type. */
  lemma ReadAfterWrite(log: seq<Record>, rec: Record)
    ensures LearningContext(log + [rec], rec.docType)
            == RuleLine(rec) + RuleLines(Query(log, rec.docType, RulesPerPrompt - 1))
    ensures RuleLine(rec) <= LearningContext(log + [rec], rec.docType)
    ensures Increasing(log + [rec]) ==>
              forall x :: x in log && x.docType == rec.docType ==> x.timestamp < rec.timestamp
  {
    if Increasing(log + [rec]) {
      forall x | x in log
        ensures x.timestamp < rec.timestamp
      {
        var i :| 0 <= i < |log| && log[i] == x;
        assert (log + [rec])[i] == x && (log + [rec])[|log|] == rec;
      }
    }
    var t := rec.docType;
    assert (log + [rec])[..|log|] == log;
    var f := Filter(log, t);
    assert Filter(log + [rec], t) == f + [rec];
    assert (f + [rec])[..|f|] == f;
    assert Reverse(f + [rec]) == [rec] + Reverse(f);
    var rest := Reverse(f);
    assert Take([rec] + rest, 3) == [rec] + Take(rest, 2);
    RenderCons(rec, Take(rest, 2), RuleLine);
  }
}
