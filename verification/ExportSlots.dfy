/** Counting the clients of each export path, across all exporters. */
module ExportSlots {

  /** How many clients the mapper counts under a key (protocol and path joined), and
      for each exporter that is registered the key under which it is. */
  datatype Slots = Slots(counts: map<string, int>, registered: map<nat, string>)

  function CountOf(counts: map<string, int>, key: string): int {
    if key in counts then counts[key] else 0
  }

  function Holders(registered: map<nat, string>, key: string): set<nat> {
    set e | e in registered && registered[e] == key
  }

  /** The mapper counts exactly the registered exporters. */
  ghost predicate Conserved(s: Slots) {
    forall key :: CountOf(s.counts, key) == |Holders(s.registered, key)|
  }

  function Added(s: Slots, exporter: nat, key: string): Slots {
    Slots(s.counts[key := CountOf(s.counts, key) + 1], s.registered[exporter := key])
  }

  function Removed(s: Slots, exporter: nat): Slots
    requires exporter in s.registered
  {
    var key := s.registered[exporter];
    Slots(s.counts[key := CountOf(s.counts, key) - 1], s.registered - {exporter})
  }

  lemma AddedConserves(s: Slots, exporter: nat, key: string)
    requires Conserved(s) && exporter !in s.registered
    ensures Conserved(Added(s, exporter, key))
    ensures |Holders(Added(s, exporter, key).registered, key)| == |Holders(s.registered, key)| + 1
  {
    var s' := Added(s, exporter, key);
    assert Holders(s'.registered, key) == Holders(s.registered, key) + {exporter};
    forall other | other != key ensures CountOf(s'.counts, other) == |Holders(s'.registered, other)| {
      assert Holders(s'.registered, other) == Holders(s.registered, other);
    }
  }

  lemma RemovedConserves(s: Slots, exporter: nat)
    requires Conserved(s) && exporter in s.registered
    ensures var key := s.registered[exporter];
      && key in s.counts && s.counts[key] > 0
      && Conserved(Removed(s, exporter))
      && |Holders(Removed(s, exporter).registered, key)| == |Holders(s.registered, key)| - 1
  {
    var s', key := Removed(s, exporter), s.registered[exporter];
    assert exporter in Holders(s.registered, key);
    assert Holders(s'.registered, key) == Holders(s.registered, key) - {exporter};
    forall other | other != key ensures CountOf(s'.counts, other) == |Holders(s'.registered, other)| {
      assert Holders(s'.registered, other) == Holders(s.registered, other);
    }
  }

  /** What the outcome of an authorization depends on: the decision, the path and its
      limit (negative for none), and whether the request can be added and played. */
  datatype Grant = Grant(connectionClosed: bool, allowed: bool, key: string, maxClients: int, requestAdded: bool,
                         playing: bool)

  /** The exporter stays registered when all went well and there was a slot. */
  predicate Admits(s: Slots, grant: Grant) {
    && !grant.connectionClosed && grant.allowed && grant.requestAdded && grant.playing
    && (grant.maxClients >= 0 ==> |Holders(s.registered, grant.key)| < grant.maxClients)
  }

  class Exporters {
    var exportClientCount: map<string, int>
    // the exporters with a registration, and the path of each
    var exportPath: map<nat, string>

    ghost function State(): Slots
      reads this
    {
      Slots(exportClientCount, exportPath)
    }

    ghost predicate Valid()
      reads this
    {
      Conserved(State())
    }

    constructor ()
      ensures Valid() && exportPath == map[]
    {
      exportClientCount, exportPath := map[], map[];
    }

    method AddExportClient(key: string) returns (count: int)
      modifies `exportClientCount
      ensures count == CountOf(old(exportClientCount), key) + 1
      ensures exportClientCount == old(exportClientCount)[key := count]
    {
      if key !in exportClientCount {
        exportClientCount := exportClientCount[key := 0];
      }
      exportClientCount := exportClientCount[key := exportClientCount[key] + 1];
      count := exportClientCount[key];
    }

    method RemoveExportClient(key: string)
      requires key in exportClientCount ==> exportClientCount[key] > 0
      modifies `exportClientCount
      ensures exportClientCount ==
        if key in old(exportClientCount) then old(exportClientCount)[key := old(exportClientCount)[key] - 1]
        else old(exportClientCount)
    {
      if key !in exportClientCount {
        return;
      }
      // the check made by the mapper
      assert exportClientCount[key] > 0;
      exportClientCount := exportClientCount[key := exportClientCount[key] - 1];
    }

    /** Gives back the slot, if the exporter has one. */
    method CloseRequest(exporter: nat)
      requires Valid()
      modifies this
      ensures Valid() && exportPath == old(exportPath) - {exporter}
    {
      if exporter in exportPath {
        RemovedConserves(State(), exporter);
        RemoveExportClient(exportPath[exporter]);
        exportPath := exportPath - {exporter};
      } else {
        assert exportPath - {exporter} == exportPath;
      }
    }

    /** Takes a slot and gives it back at once when it turns out to be one too many,
        or when the request fails. */
    method AuthorizeCompleted(exporter: nat, grant: Grant)
      requires Valid() && exporter !in exportPath
      modifies this
      ensures Valid()
      ensures exportPath ==
        if Admits(old(State()), grant) then old(exportPath)[exporter := grant.key] else old(exportPath)
    {
      if grant.connectionClosed {
        return;
      }
      if !grant.allowed {
        CloseRequest(exporter);
        assert exportPath == old(exportPath);
        return;
      }
      AddedConserves(State(), exporter, grant.key);
      var clientCount := AddExportClient(grant.key);
      exportPath := exportPath[exporter := grant.key];
      if grant.maxClients >= 0 && grant.maxClients < clientCount {
        CloseRequest(exporter);
        assert exportPath == old(exportPath);
        return;
      }
      if !grant.requestAdded {
        CloseRequest(exporter);
        assert exportPath == old(exportPath);
        return;
      }
      if !grant.playing {
        CloseRequest(exporter);
        assert exportPath == old(exportPath);
        return;
      }
    }
  }

  // ----- Any interleaving of many exporters -----

  datatype Op = Authorized(exporter: nat, grant: Grant) | Closed(exporter: nat)

  predicate Applicable(registered: map<nat, string>, op: Op) {
    op.Authorized? ==> op.exporter !in registered
  }

  function Apply(registered: map<nat, string>, op: Op): map<nat, string> {
    match op
    case Closed(exporter) => registered - {exporter}
    case Authorized(exporter, grant) =>
      if Admits(Slots(map[], registered), grant) then registered[exporter := grant.key] else registered
  }

  predicate IsRun(registered: map<nat, string>, ops: seq<Op>)
    decreases |ops|
  {
    ops == [] || (Applicable(registered, ops[0]) && IsRun(Apply(registered, ops[0]), ops[1..]))
  }

  /** The exporters' own methods, run one after another, keep the count. */
  method Run(ops: seq<Op>) returns (exporters: Exporters)
    requires IsRun(map[], ops)
    ensures exporters.Valid() && exporters.exportPath == After(map[], ops)
  {
    exporters := new Exporters();
    assert ops[0..] == ops;
    for i := 0 to |ops|
      invariant fresh(exporters) && exporters.Valid()
      invariant IsRun(exporters.exportPath, ops[i..])
      invariant After(exporters.exportPath, ops[i..]) == After(map[], ops)
    {
      assert ops[i..][1..] == ops[i + 1..] && ops[i..][0] == ops[i];
      match ops[i]
      case Authorized(exporter, grant) => exporters.AuthorizeCompleted(exporter, grant);
      case Closed(exporter) => exporters.CloseRequest(exporter);
    }
  }

  function After(registered: map<nat, string>, ops: seq<Op>): map<nat, string>
    decreases |ops|
  {
    if ops == [] then registered else After(Apply(registered, ops[0]), ops[1..])
  }

  /** The limit of a path is the same whenever a client asks for it. */
  ghost predicate LimitFixed(ops: seq<Op>, key: string, limit: int) {
    forall i :: 0 <= i < |ops| && ops[i].Authorized? && ops[i].grant.key == key ==> ops[i].grant.maxClients == limit
  }

  lemma StepWithinLimit(registered: map<nat, string>, op: Op, key: string, limit: nat)
    requires Applicable(registered, op) && |Holders(registered, key)| <= limit
    requires op.Authorized? && op.grant.key == key ==> op.grant.maxClients == limit
    ensures |Holders(Apply(registered, op), key)| <= limit
  {
    var after := Holders(Apply(registered, op), key);
    if op.Closed? {
      SubsetSize(after, Holders(registered, key));
    } else if op.grant.key == key && Admits(Slots(map[], registered), op.grant) {
      assert after == Holders(registered, key) + {op.exporter};
    } else {
      assert after == Holders(registered, key);
    }
  }

  lemma SubsetSize(a: set<nat>, b: set<nat>)
    requires a <= b
    ensures |a| <= |b|
  {
    assert b == a + (b - a);
  }

  /** However many exporters come and go, a path with a fixed limit never has more
      clients registered than that, after any step. */
  lemma {:induction false} LimitHolds(registered: map<nat, string>, ops: seq<Op>, key: string, limit: nat)
    requires IsRun(registered, ops) && LimitFixed(ops, key, limit) && |Holders(registered, key)| <= limit
    ensures |Holders(After(registered, ops), key)| <= limit
    decreases |ops|
  {
    if ops != [] {
      StepWithinLimit(registered, ops[0], key, limit);
      assert LimitFixed(ops[1..], key, limit) by {
        assert forall i :: 0 <= i < |ops| - 1 ==> ops[1..][i] == ops[i + 1];
      }
      LimitHolds(Apply(registered, ops[0]), ops[1..], key, limit);
    }
  }

  /** Operation i let the exporter in: everything was granted and there was a slot left,
      and the exporter has not been closed since. */
  ghost predicate LetIn(ops: seq<Op>, i: nat, exporter: nat, key: string) {
    && i < |ops| && ops[i].Authorized? && ops[i].exporter == exporter
    && AllGranted(ops[i].grant, key, |Holders(After(map[], ops[..i]), key)|)
    && forall j :: i < j < |ops| ==> ops[j] != Closed(exporter)
  }

  predicate AllGranted(grant: Grant, key: string, clients: nat) {
    && grant.key == key && !grant.connectionClosed && grant.allowed && grant.requestAdded && grant.playing
    && (grant.maxClients < 0 || clients < grant.maxClients)
  }

  lemma {:induction false} RunAppends(registered: map<nat, string>, ops: seq<Op>)
    requires ops != [] && IsRun(registered, ops)
    ensures var n := |ops| - 1;
      && IsRun(registered, ops[..n]) && Applicable(After(registered, ops[..n]), ops[n])
      && After(registered, ops) == Apply(After(registered, ops[..n]), ops[n])
    decreases |ops|
  {
    if |ops| > 1 {
      RunAppends(Apply(registered, ops[0]), ops[1..]);
      assert ops[1..][..|ops[1..]| - 1] == ops[..|ops| - 1][1..];
    }
  }

  lemma LetInStep(ops: seq<Op>, i: nat, exporter: nat, key: string)
    requires ops != []
    ensures var n := |ops| - 1;
      i < n ==> (LetIn(ops, i, exporter, key) <==> LetIn(ops[..n], i, exporter, key) && ops[n] != Closed(exporter))
  {
    if i < |ops| - 1 {
      assert ops[..|ops| - 1][..i] == ops[..i];
    }
  }

  /** After any series of operations: an exporter is registered under a path if and only
      if it was let in under that path and not closed since. */
  lemma {:induction false} RegisteredIff(ops: seq<Op>, exporter: nat, key: string)
    requires IsRun(map[], ops)
    ensures var registered := After(map[], ops);
      exporter in registered && registered[exporter] == key <==> exists i: nat :: LetIn(ops, i, exporter, key)
  {
    if ops != [] {
      var n := |ops| - 1;
      RunAppends(map[], ops);
      RegisteredIff(ops[..n], exporter, key);
      if i: nat :| LetIn(ops[..n], i, exporter, key) {
        LetInStep(ops, i, exporter, key);
      }
      if i: nat :| LetIn(ops, i, exporter, key) {
        LetInStep(ops, i, exporter, key);
      }
      if ops[n].Authorized? && ops[n].exporter == exporter {
        assert LetIn(ops, n, exporter, key) <==>
          ops[n].grant.key == key && Admits(Slots(map[], After(map[], ops[..n])), ops[n].grant);
      }
    }
  }
}
