/** Stock updates from the reserve script to a WebSocket client. */
module StockFeed {
  import opened Inventory
  import Hub

  /** The broadcasts come from the published updates, in order; Redis and the
      subscription may drop some.  A message is its update's place in the history. */
  ghost predicate Relayed(log: seq<Change>, sent: seq<nat>) {
    && (forall i :: 0 <= i < |sent| ==> sent[i] < |log| && log[sent[i]].Taken?)
    && (forall i, j :: 0 <= i < j < |sent| ==> sent[i] < sent[j])
  }

  /** What a client is shown of an item between two resets strictly decreases,
      and every difference is exactly the units reserved in between. */
  lemma ClientSeesDecreasingStock(
      store: seq<Step>, hub: seq<Hub.Step<nat>>, c: nat, i: nat, j: nat, item: string)
    requires AllLegal(store) && Hub.IsRun(Hub.Fresh<nat>(), hub)
    requires Relayed(After(EMPTY, store).log, Hub.After(Hub.Fresh<nat>(), hub).sent)
    requires c in Hub.After(Hub.Fresh<nat>(), hub).clients
    requires var log := After(EMPTY, store).log;
      var shown := Hub.After(Hub.Fresh<nat>(), hub).clients[c].written;
      && i < j < |shown|
      && shown[i] < |log| && shown[j] < |log|
      && UpdateOf(log, shown[i], item) && UpdateOf(log, shown[j], item)
      && (forall k :: shown[i] < k <= shown[j] ==> !IsReset(log[k], item))
    ensures var log := After(EMPTY, store).log;
      var shown := Hub.After(Hub.Fresh<nat>(), hub).clients[c].written;
      && shown[i] < shown[j]
      && log[shown[j]].remaining == log[shown[i]].remaining - Units(log[shown[i] + 1..shown[j] + 1], item)
      && log[shown[j]].remaining < log[shown[i]].remaining
  {
    var log := After(EMPTY, store).log;
    var s := Hub.After(Hub.Fresh<nat>(), hub);
    var shown := s.clients[c].written;
    Hub.NoGaps(hub, c);
    assert shown[i] == s.sent[s.clients[c].since + i] && shown[j] == s.sent[s.clients[c].since + j];
    var middle := log[shown[i] + 1..shown[j] + 1];
    forall k | 0 <= k < |middle| ensures !IsReset(middle[k], item) {
      assert middle[k] == log[shown[i] + 1 + k];
    }
    PublishedTraceDecreases(store, shown[i], shown[j], item);
  }

  predicate UpdateOf(log: seq<Change>, k: nat, item: string) {
    k < |log| && log[k].Taken? && log[k].item == item
  }
}
