/** Which registered devices are disconnected (Program.cs line 31): those of the full list that
    the list of present devices does not contain, compared as exact strings. */
module Reconciliation {
  import opened Collections

  /** `device => activeDevices.Contains(device) == false`. */
  function NotIn(active: seq<string>): string -> bool {
    d => d !in active
  }

  /** `allDevices.Where(device => activeDevices.Contains(device) == false)`. */
  function Reconcile(active: seq<string>, all: seq<string>): seq<string> {
    Filter(all, NotIn(active))
  }

  /** The disconnected devices are the registered ones that are not present, each as often as it
      is registered, in the order of the full list. */
  lemma ReconcileSpec(active: seq<string>, all: seq<string>)
    ensures forall d :: d in Reconcile(active, all) <==> d in all && d !in active
    ensures forall d :: multiset(Reconcile(active, all))[d] == if d in active then 0 else multiset(all)[d]
    ensures IsSubsequence(Reconcile(active, all), all)
  {
    FilterMembers(all, NotIn(active));
    FilterCounts(all, NotIn(active));
    FilterIsSubsequence(all, NotIn(active));
  }

  /** With no device present, every registered device is disconnected. */
  lemma NothingActive(all: seq<string>)
    ensures Reconcile([], all) == all
  {
    FilterKeepsAll(all, NotIn([]));
  }

  /** With no registered device, none is disconnected. */
  lemma NothingRegistered(active: seq<string>)
    ensures Reconcile(active, []) == []
  {
  }

  /** When every registered device is present, none is disconnected. */
  lemma AllActive(active: seq<string>, all: seq<string>)
    requires forall i :: 0 <= i < |all| ==> all[i] in active
    ensures Reconcile(active, all) == []
  {
    FilterKeepsNone(all, NotIn(active));
  }

  /** Reconciling again against the same present devices changes nothing. */
  lemma ReconcileIdempotent(active: seq<string>, all: seq<string>)
    ensures Reconcile(active, Reconcile(active, all)) == Reconcile(active, all)
  {
    var r := Reconcile(active, all);
    FilterKeepsAll(r, NotIn(active));
  }

  /** Two of three ports present, one left over. */
  lemma ReconcileExample()
    ensures Reconcile(["COM3", "COM5"], ["COM3", "COM5", "COM7"]) == ["COM7"]
    ensures Reconcile(["COM3"], ["COM3", "COM5"]) == ["COM5"]
  {
    var active := ["COM3", "COM5"];
    var all := ["COM3", "COM5", "COM7"];
    assert all[1..] == ["COM5", "COM7"] && all[1..][1..] == ["COM7"];
    assert "COM7" !in active;
    assert ["COM3", "COM5"][1..] == ["COM5"];
  }
}
