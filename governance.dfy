/** src/accountability/governance.py: the audit ledger. Every decision is
    appended to a persisted list that keeps only its last 100 entries;
    each entry holds the full request and a compact snapshot of the
    response. The list on disk is the field `log`. */
module Governance {
  import opened Wrappers
  import Schema
  import Responses

  const Capacity: nat := 100

  /** The `output` part of an entry. */
  datatype Snapshot = Snapshot(prediction: string, probability: real, certainty: real)

  datatype Entry = Entry(
    id: string,
    timestamp: string,
    modelVersion: string,
    input: Schema.Request,
    output: Snapshot)

  /** The snapshot keeps the prediction, the probability and, as
      certainty, the confidence score, and nothing else of the response. */
  function SnapshotOf(r: Responses.DecisionResponse): (s: Snapshot)
    ensures s.prediction == r.prediction && s.probability == r.probability
    ensures s.certainty == r.confidenceScore
  {
    Snapshot(r.prediction, r.probability, r.confidenceScore)
  }

  /** `logs[-n:]`. */
  function LastN<T>(s: seq<T>, n: nat): (r: seq<T>)
    ensures |r| == if |s| <= n then |s| else n
    ensures r == s[|s| - |r|..]
  {
    if |s| <= n then s else s[|s| - n..]
  }

  /** Appending to a bounded log: the new entry is last, the log grows by
      one until it holds 100 entries, survivors keep their order, and in a
      full log the oldest entry is the one evicted. */
  lemma AppendFacts<T>(log: seq<T>, e: T)
    ensures var r := LastN(log + [e], Capacity);
      && |r| == (if |log| + 1 <= Capacity then |log| + 1 else Capacity)
      && r[|r| - 1] == e
      && r[..|r| - 1] == log[|log| + 1 - |r|..]
      && (|log| < Capacity ==> r == log + [e])
      && (|log| == Capacity ==> r == log[1..] + [e])
  {
    var s := log + [e];
    var r := LastN(s, Capacity);
    assert r == s[|s| - |r|..];
    assert r[..|r| - 1] == s[|s| - |r|..|s| - 1];
    assert s[..|log|] == log;
  }

  /** After `k` further appends to a full log, the log still holds 100
      entries and the first `k` of the old ones are gone. */
  lemma {:induction false} Evicted<T>(log: seq<T>, es: seq<T>)
    requires |log| == Capacity && |es| <= Capacity
    ensures AppendAll(log, es) == log[|es|..] + es
  {
    if es != [] {
      var front := es[..|es| - 1];
      var last := es[|es| - 1];
      Evicted(log, front);
      var prev := log[|front|..] + front;
      assert prev + [last] == log[|front|..] + es;
      assert |prev| == Capacity;
      assert LastN(prev + [last], Capacity) == (prev + [last])[1..];
      assert (prev + [last])[1..] == log[|es|..] + es;
    }
  }

  /** Trimming before an append keeps the same window as trimming after. */
  lemma LastNAppend<T>(s: seq<T>, x: T, n: nat)
    ensures LastN(LastN(s, n) + [x], n) == LastN(s + [x], n)
  {
    var u := LastN(s, n);
    if |s| > n {
      assert u + [x] == (s + [x])[|s| - n..];
      assert (s + [x])[|s| - n..][|u + [x]| - |LastN(u + [x], n)|..]
             == (s + [x])[|s| + 1 - |LastN(s + [x], n)|..];
    }
  }

  /** Whatever the log held, after a run of appends it holds the last 100
      entries of the old log followed by the new ones. */
  lemma {:induction false} AppendAllWindow<T>(log: seq<T>, es: seq<T>)
    requires |log| <= Capacity
    ensures AppendAll(log, es) == LastN(log + es, Capacity)
  {
    if es == [] {
      assert log + es == log;
    } else {
      var front := es[..|es| - 1];
      var last := es[|es| - 1];
      AppendAllWindow(log, front);
      LastNAppend(log + front, last, Capacity);
      assert (log + front) + [last] == log + es;
    }
  }

  /** The log after appending each of `es` in turn. */
  function AppendAll<T>(log: seq<T>, es: seq<T>): (r: seq<T>)
    requires |log| <= Capacity
    ensures |r| <= Capacity
  {
    if es == [] then log else LastN(AppendAll(log, es[..|es| - 1]) + [es[|es| - 1]], Capacity)
  }

  class GovernanceAuditor {
    var log: seq<Entry>

    /** `GovernanceAuditor()`: an existing log file (`existing`) is kept as
        it is; otherwise an empty one is created. */
    constructor (existing: Option<seq<Entry>>)
      ensures log == if existing.Some? then existing.value else []
    {
      log := if existing.Some? then existing.value else [];
    }

    /** `log_decision`. `id` and `timestamp` stand for the fresh UUID and
        the clock; `ioOk` is false when reading or writing the file raised,
        in which case the error is logged and the log stays as it was. */
    method LogDecision(request: Schema.Request, response: Responses.DecisionResponse,
                       modelVersion: string, id: string, timestamp: string, ioOk: bool)
      returns (entry: Entry)
      modifies this
      ensures entry == Entry(id, timestamp, modelVersion, request, SnapshotOf(response))
      ensures log == if ioOk then LastN(old(log) + [entry], Capacity) else old(log)
      ensures ioOk ==> |log| <= Capacity && log[|log| - 1] == entry
    {
      entry := Entry(id, timestamp, modelVersion, request, SnapshotOf(response));
      if ioOk {
        log := LastN(log + [entry], Capacity);
        AppendFacts(old(log), entry);
      }
    }
  }
}
