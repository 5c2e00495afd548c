/** The change filter and reload trigger: the loop that drains the watcher's
    event and error channels. The two channels are merged into one sequence
    of items in the order the loop receives them. The world each reload
    attempt sees is `world(i)` for the item at position `i`, so every
    attempt resolves the PID afresh. */
module ChangeFilter {
  import opened Configuration
  import opened Dispatcher

  /** fsnotify's `Op` bitmask. */
  type Op = bv32

  const Create: Op := 1
  const Write: Op := 2
  const Remove: Op := 4
  const Rename: Op := 8
  const Chmod: Op := 16

  /** One receive of the loop's `select`. */
  datatype Item =
    | Event(name: string, op: Op)
    | TransportError
    | EventsClosed
    | ErrorsClosed

  /** The filter: any event whose mask lacks the Chmod bit (bit 4)
      triggers a reload. */
  predicate Triggers(op: Op): (b: bool)
    ensures b <==> (op >> 4) & 1 == 0
  {
    op & Chmod != Chmod
  }

  predicate IsReloadEvent(item: Item) {
    item.Event? && Triggers(item.op)
  }

  predicate IsClose(item: Item) {
    item.EventsClosed? || item.ErrorsClosed?
  }

  /** An event triggers a reload exactly when its Chmod bit is clear, so an
      event that also carries Chmod (Write|Chmod, say) triggers none, and
      each of the other four kinds alone triggers one. */
  lemma FilterByChmodBit(op: Op)
    ensures !Triggers(op | Chmod)
    ensures Triggers(op & !Chmod)
    ensures Triggers(Create) && Triggers(Write) && Triggers(Remove) && Triggers(Rename)
  {
  }

  /** Number of items handled before the first close: every item before it
      is not a close, and it is a close unless the sequence had none. */
  function StopIndex(items: seq<Item>): (k: nat)
    ensures k <= |items|
    ensures forall j :: 0 <= j < k ==> !IsClose(items[j])
    ensures k < |items| ==> IsClose(items[k])
  {
    if items == [] || IsClose(items[0]) then 0 else 1 + StopIndex(items[1..])
  }

  /** Positions of the events that trigger a reload, in increasing order. */
  function ReloadIndices(items: seq<Item>): (r: seq<nat>)
    ensures forall k :: 0 <= k < |r| ==> r[k] < |items| && IsReloadEvent(items[r[k]])
    ensures forall i :: 0 <= i < |items| && IsReloadEvent(items[i]) ==> i in r
    ensures forall k1, k2 :: 0 <= k1 < k2 < |r| ==> r[k1] < r[k2]
  {
    if items == [] then []
    else
      var n := |items| - 1;
      var prefix := items[..n];
      var r := ReloadIndices(prefix);
      assert forall k :: 0 <= k < |r| ==> items[r[k]] == prefix[r[k]];
      assert forall i :: 0 <= i < n ==> items[i] == prefix[i];
      if IsReloadEvent(items[n]) then r + [n] else r
  }

  /** The reload attempted for a triggering event: `reloadProcess` with the
      validated process name, PID file and signal, one of the two strings
      being empty. */
  function Reload(s: Settings, w: World): (r: ReloadOutcome)
    ensures s.target.ByName? ==> r == ReloadProcess(s.target.name, "", s.signal, w)
    ensures s.target.ByPidFile? ==> r == ReloadProcess("", s.target.path, s.signal, w)
  {
    ReloadProcess(ProcessName(s.target), PidFile(s.target), s.signal, w)
  }

  /** The reload goroutine's loop. It returns at the first close of either
      channel; `handled` items came before it and `closed` says whether one
      was seen. A transport error or a failed reload is logged and the loop
      goes on, so the outcome of the k-th attempt is that of the reload for
      the k-th triggering event among the handled ones, and there is exactly
      one attempt per triggering event. */
  method Drain(s: Settings, items: seq<Item>, world: nat -> World)
    returns (attempts: seq<ReloadOutcome>, handled: nat, closed: bool)
    ensures handled == StopIndex(items)
    ensures closed <==> handled < |items|
    ensures |attempts| == |ReloadIndices(items[..handled])|
    ensures forall k :: 0 <= k < |attempts| ==>
      attempts[k] == Reload(s, world(ReloadIndices(items[..handled])[k]))
  {
    attempts := [];
    var i := 0;
    while i < |items|
      invariant 0 <= i <= |items|
      invariant forall j :: 0 <= j < i ==> !IsClose(items[j])
      invariant |attempts| == |ReloadIndices(items[..i])|
      invariant forall k :: 0 <= k < |attempts| ==> attempts[k] == Reload(s, world(ReloadIndices(items[..i])[k]))
    {
      assert items[..i + 1][..i] == items[..i];
      match items[i] {
        case EventsClosed =>
          StopIndexAtFirstClose(items, i);
          return attempts, i, true;
        case ErrorsClosed =>
          StopIndexAtFirstClose(items, i);
          return attempts, i, true;
        case TransportError =>
        case Event(name, op) =>
          if Triggers(op) {
            attempts := attempts + [Reload(s, world(i))];
          }
      }
      i := i + 1;
    }
    StopIndexAtFirstClose(items, i);
    assert items[..i] == items;
    return attempts, i, false;
  }

  /** StopIndex is the position of the first close (or the length). */
  lemma StopIndexAtFirstClose(items: seq<Item>, i: nat)
    requires i <= |items|
    requires forall j :: 0 <= j < i ==> !IsClose(items[j])
    requires i < |items| ==> IsClose(items[i])
    ensures StopIndex(items) == i
  {
  }

  /** Whatever follows the first close is never examined: the handled
      prefix, and hence every attempt, depends only on the items before it. */
  lemma {:induction false} NothingAfterClose(before: seq<Item>, c: Item, after: seq<Item>)
    requires forall j :: 0 <= j < |before| ==> !IsClose(before[j])
    requires IsClose(c)
    ensures StopIndex(before + [c] + after) == |before|
    ensures (before + [c] + after)[..|before|] == before
    ensures ReloadIndices((before + [c] + after)[..StopIndex(before + [c] + after)]) == ReloadIndices(before)
  {
    var items := before + [c] + after;
    assert items[|before|] == c;
    assert forall j :: 0 <= j < |before| ==> items[j] == before[j];
    StopIndexAtFirstClose(items, |before|);
  }

  /** An event is reloaded exactly when it triggers, and then by exactly one
      attempt; in particular an event carrying the Chmod bit never is. */
  lemma ReloadedExactlyOnce(items: seq<Item>, i: nat)
    requires i < |items|
    ensures i in ReloadIndices(items) <==> IsReloadEvent(items[i])
    ensures IsReloadEvent(items[i]) ==>
      exists k :: 0 <= k < |ReloadIndices(items)| && ReloadIndices(items)[k] == i &&
        forall k' :: 0 <= k' < |ReloadIndices(items)| && ReloadIndices(items)[k'] == i ==> k' == k
  {
    var r := ReloadIndices(items);
    if IsReloadEvent(items[i]) {
      var k :| 0 <= k < |r| && r[k] == i;
      forall k' | 0 <= k' < |r| && r[k'] == i ensures k' == k {
        IncreasingInjective(r, k', k);
      }
    }
  }

  lemma IncreasingInjective(r: seq<nat>, a: nat, b: nat)
    requires forall k1, k2 :: 0 <= k1 < k2 < |r| ==> r[k1] < r[k2]
    requires a < |r| && b < |r| && r[a] == r[b]
    ensures a == b
  {
  }
}
