/**
 Publish/subscribe as both the device and the robot module do it: a log of messages, a list of subscribers with
 one channel each, and a publish that sends inside `retain`, dropping subscribers whose channel is closed.
 */
module FanOut {
  import opened Wrappers

  datatype Subscriber<F> = Subscriber(filter: F, channel: nat)

  /** A channel, with the filter its receiver subscribed with. */
  datatype Channel<F, M> = Channel(filter: F, open: bool, received: seq<M>)

  /** Channels are numbered in order of subscription. */
  datatype Hub<F, M> = Hub(log: seq<M>, subscribers: seq<Subscriber<F>>, channels: seq<Channel<F, M>>)

  datatype Label<F, M> = Subscribe(filter: F) | Publish(message: M) | Disconnect(channel: nat)

  // ---- one step ----

  /** The `retain` of a publish over the first `n` subscribers: who stays, and what is in the channels. */
  function Retain<F(!new), M(!new)>(subscribers: seq<Subscriber<F>>, channels: seq<Channel<F, M>>, message: M,
                                    wants: (F, M) -> bool): (r: (seq<Subscriber<F>>, seq<Channel<F, M>>))
    ensures |r.1| == |channels|
  {
    if subscribers == [] then ([], channels)
    else
      var n := |subscribers| - 1;
      var (kept, sent) := Retain(subscribers[..n], channels, message, wants);
      RetainOne(kept, sent, subscribers[n], message, wants)
  }

  /** One call of the closure given to `retain`. */
  function RetainOne<F(!new), M(!new)>(kept: seq<Subscriber<F>>, channels: seq<Channel<F, M>>, s: Subscriber<F>,
                                       message: M, wants: (F, M) -> bool)
    : (r: (seq<Subscriber<F>>, seq<Channel<F, M>>))
    ensures |r.1| == |channels|
  {
    if !wants(s.filter, message) then (kept + [s], channels)
    else if s.channel < |channels| && channels[s.channel].open then
      (kept + [s], channels[s.channel := channels[s.channel].(received := channels[s.channel].received + [message])])
    else (kept, channels)
  }

  /** `subscribers.retain(..)` as the loop it is. */
  method RetainSubscribers<F(!new), M(!new)>(subscribers: seq<Subscriber<F>>, channels: seq<Channel<F, M>>, message: M,
                                             wants: (F, M) -> bool)
    returns (kept: seq<Subscriber<F>>, sent: seq<Channel<F, M>>)
    ensures (kept, sent) == Retain(subscribers, channels, message, wants)
  {
    kept, sent := [], channels;
    for i := 0 to |subscribers|
      invariant (kept, sent) == Retain(subscribers[..i], channels, message, wants)
    {
      assert subscribers[..i + 1][..i] == subscribers[..i];
      var s := subscribers[i];
      if wants(s.filter, message) {
        if s.channel < |sent| && sent[s.channel].open {
          sent := sent[s.channel := sent[s.channel].(received := sent[s.channel].received + [message])];
          kept := kept + [s];
        }
      } else {
        kept := kept + [s];
      }
    }
    assert subscribers[..|subscribers|] == subscribers;
  }

  function Next<F(!new), M(!new)>(h: Hub<F, M>, l: Label<F, M>, wants: (F, M) -> bool): Hub<F, M> {
    match l
    case Subscribe(filter) =>
      h.(subscribers := h.subscribers + [Subscriber(filter, |h.channels|)], channels := h.channels + [Channel(filter, true, [])])
    case Publish(message) =>
      var (kept, sent) := Retain(h.subscribers, h.channels, message, wants);
      Hub(h.log + [message], kept, sent)
    case Disconnect(c) =>
      if c < |h.channels| then h.(channels := h.channels[c := h.channels[c].(open := false)]) else h
  }

  /** The hub after a run that starts without subscribers. */
  function After<F(!new), M(!new)>(log: seq<M>, labels: seq<Label<F, M>>, wants: (F, M) -> bool): Hub<F, M> {
    if labels == [] then Hub(log, [], [])
    else var n := |labels| - 1; Next(After(log, labels[..n], wants), labels[n], wants)
  }

  // ---- what every step keeps ----

  predicate Tied<F(==), M>(s: Subscriber<F>, channels: seq<Channel<F, M>>) {
    s.channel < |channels| && channels[s.channel].filter == s.filter
  }

  ghost predicate SubscribersOk<F, M>(subscribers: seq<Subscriber<F>>, channels: seq<Channel<F, M>>) {
    && (forall i | 0 <= i < |subscribers| :: Tied(subscribers[i], channels))
    && (forall i, j | 0 <= i < j < |subscribers| :: subscribers[i].channel != subscribers[j].channel)
  }

  /** Every open channel still has its subscriber. */
  ghost predicate OpenAreServed<F, M>(subscribers: seq<Subscriber<F>>, channels: seq<Channel<F, M>>) {
    forall c | 0 <= c < |channels| && channels[c].open :: Subscriber(channels[c].filter, c) in subscribers
  }

  ghost predicate HubOk<F, M>(h: Hub<F, M>) {
    SubscribersOk(h.subscribers, h.channels) && OpenAreServed(h.subscribers, h.channels)
  }

  /** What one publish should do to a channel. */
  function Sent<F, M>(c: Channel<F, M>, message: M, wants: (F, M) -> bool): Channel<F, M> {
    if c.open && wants(c.filter, message) then c.(received := c.received + [message]) else c
  }

  /** Part way through: channels of subscribers already visited have been served, the others not yet. */
  lemma {:induction false} RetainServes<F(!new), M(!new)>(subscribers: seq<Subscriber<F>>, channels: seq<Channel<F, M>>,
                                                          message: M, wants: (F, M) -> bool)
    requires SubscribersOk(subscribers, channels)
    ensures var (kept, sent) := Retain(subscribers, channels, message, wants);
            && (forall s | s in kept :: s in subscribers)
            && (forall i, j | 0 <= i < j < |kept| :: kept[i].channel != kept[j].channel)
            && (forall s | s in subscribers && channels[s.channel].open :: s in kept)
            && forall c | 0 <= c < |channels| ::
                 sent[c] == if Subscriber(channels[c].filter, c) in subscribers then Sent(channels[c], message, wants)
                            else channels[c]
  {
    if subscribers != [] {
      var n := |subscribers| - 1;
      var s, before := subscribers[n], subscribers[..n];
      assert subscribers == before + [s];
      RetainServes(before, channels, message, wants);
      assert Tied(s, channels);
      assert s !in before;
      assert forall t | t in before :: t.channel != s.channel;
      hide Retain;
      assert s == Subscriber(channels[s.channel].filter, s.channel);
    }
  }

  lemma NextKeepsHub<F(!new), M(!new)>(h: Hub<F, M>, l: Label<F, M>, wants: (F, M) -> bool)
    requires HubOk(h)
    ensures HubOk(Next(h, l, wants))
    ensures l.Publish? ==>
              var channels := Next(h, l, wants).channels;
              |channels| == |h.channels| && forall c | 0 <= c < |channels| :: channels[c] == Sent(h.channels[c], l.message, wants)
  {
    match l {
      case Subscribe(filter) =>
      case Disconnect(c) =>
      case Publish(message) =>
        RetainServes(h.subscribers, h.channels, message, wants);
        hide Retain;
    }
  }

  lemma {:induction false} HubReachable<F(!new), M(!new)>(log: seq<M>, labels: seq<Label<F, M>>, wants: (F, M) -> bool)
    ensures HubOk(After(log, labels, wants))
  {
    if labels != [] {
      var n := |labels| - 1;
      HubReachable(log, labels[..n], wants);
      NextKeepsHub(After(log, labels[..n], wants), labels[n], wants);
      hide HubOk, Next;
    }
  }

  // ---- every run ----

  /** How many subscriptions a run has made: the number of the next channel. */
  function Count<F, M>(labels: seq<Label<F, M>>): nat {
    if labels == [] then 0
    else var n := |labels| - 1; Count(labels[..n]) + if labels[n].Subscribe? then 1 else 0
  }

  /** The published messages that match, in order. */
  function Matching<F(!new), M(!new)>(labels: seq<Label<F, M>>, filter: F, wants: (F, M) -> bool): seq<M> {
    if labels == [] then []
    else
      var n := |labels| - 1;
      Matching(labels[..n], filter, wants)
      + if labels[n].Publish? && wants(filter, labels[n].message) then [labels[n].message] else []
  }

  /** The part of a run before channel `c` is disconnected. */
  function Until<F(==), M(==)>(labels: seq<Label<F, M>>, c: nat): seq<Label<F, M>> {
    if labels == [] then []
    else
      var n := |labels| - 1;
      var before := Until(labels[..n], c);
      if |before| < n || labels[n] == Disconnect(c) then before else labels
  }

  lemma {:induction false} UntilIs<F, M>(labels: seq<Label<F, M>>, c: nat)
    ensures Until(labels, c) <= labels && Disconnect(c) !in Until(labels, c)
    ensures Until(labels, c) == labels || labels[|Until(labels, c)|] == Disconnect(c)
  {
    if labels != [] {
      UntilIs(labels[..|labels| - 1], c);
    }
  }

  lemma {:induction false} ChannelsCounted<F(!new), M(!new)>(log: seq<M>, labels: seq<Label<F, M>>, wants: (F, M) -> bool)
    ensures |After(log, labels, wants).channels| == Count(labels)
  {
    if labels != [] {
      ChannelsCounted(log, labels[..|labels| - 1], wants);
    }
  }

  /** One label more. */
  lemma UntilNext<F(!new), M(!new)>(labels: seq<Label<F, M>>, l: Label<F, M>, c: nat, filter: F, wants: (F, M) -> bool)
    ensures var more := labels + [l];
            && (Disconnect(c) in more <==> Disconnect(c) in labels || l == Disconnect(c))
            && Matching(Until(more, c), filter, wants) ==
               Matching(Until(labels, c), filter, wants)
               + if Disconnect(c) !in labels && l.Publish? && wants(filter, l.message) then [l.message] else []
  {
    var more := labels + [l];
    assert more[..|more| - 1] == labels;
    UntilIs(labels, c);
    if Disconnect(c) !in labels {
      assert Until(labels, c) == labels;
      assert Matching(labels, filter, wants) + [] == Matching(labels, filter, wants);
    } else {
      assert Until(labels, c) != labels;
      assert |Until(labels, c)| < |labels|;
    }
  }

  lemma ChannelNext<F(!new), M(!new)>(h: Hub<F, M>, l: Label<F, M>, c: nat, wants: (F, M) -> bool)
    requires HubOk(h) && c < |h.channels|
    ensures var channels := Next(h, l, wants).channels;
            && c < |channels|
            && channels[c] ==
               match l
               case Subscribe(_) => h.channels[c]
               case Publish(message) => Sent(h.channels[c], message, wants)
               case Disconnect(d) => if d == c then h.channels[c].(open := false) else h.channels[c]
  {
    NextKeepsHub(h, l, wants);
    hide HubOk, Retain;
  }

  /** What the receiver of channel `c` is owed after the labels since its subscription. */
  ghost function Owed<F(!new), M(!new)>(since: seq<Label<F, M>>, c: nat, filter: F, wants: (F, M) -> bool): Channel<F, M> {
    Channel(filter, Disconnect(c) !in since, Matching(Until(since, c), filter, wants))
  }

  /** The receiver has what it is owed, and is still subscribed unless it left. */
  ghost predicate Served<F(!new), M(!new)>(h: Hub<F, M>, since: seq<Label<F, M>>, c: nat, filter: F, wants: (F, M) -> bool) {
    && c < |h.channels| && h.channels[c] == Owed(since, c, filter, wants)
    && (Disconnect(c) !in since ==> Subscriber(filter, c) in h.subscribers)
  }

  lemma ServedFirst<F(!new), M(!new)>(h: Hub<F, M>, filter: F, wants: (F, M) -> bool)
    ensures Served(Next(h, Subscribe(filter), wants), [], |h.channels|, filter, wants)
  {
    assert Subscriber(filter, |h.channels|) == (h.subscribers + [Subscriber(filter, |h.channels|)])[|h.subscribers|];
  }

  lemma ServedNext<F(!new), M(!new)>(h: Hub<F, M>, since: seq<Label<F, M>>, l: Label<F, M>, c: nat, filter: F,
                                     wants: (F, M) -> bool)
    requires HubOk(h) && Served(h, since, c, filter, wants)
    ensures Served(Next(h, l, wants), since + [l], c, filter, wants)
  {
    UntilNext(since, l, c, filter, wants);
    ChannelNext(h, l, c, wants);
    NextKeepsHub(h, l, wants);
    hide Next, Until, Matching;
  }

  /**
   In every run each receiver has got exactly the matching messages published from its subscription to its
   disconnection, in publish order; while connected it is never dropped from the subscribers.
   */
  lemma {:induction false} SubscribersGetExactlyTheirs<F(!new), M(!new)>(log: seq<M>, labels: seq<Label<F, M>>, k: nat,
                                                                        wants: (F, M) -> bool)
    requires k < |labels| && labels[k].Subscribe?
    ensures Served(After(log, labels, wants), labels[k + 1..], Count(labels[..k]), labels[k].filter, wants)
  {
    hide Served, Next, HubOk;
    var n, c, filter := |labels| - 1, Count(labels[..k]), labels[k].filter;
    var before := After(log, labels[..n], wants);
    if k == n {
      ChannelsCounted(log, labels[..n], wants);
      assert labels[k + 1..] == [];
      ServedFirst(before, filter, wants);
    } else {
      HubReachable(log, labels[..n], wants);
      SubscribersGetExactlyTheirs(log, labels[..n], k, wants);
      assert labels[..n][..k] == labels[..k];
      assert labels[k + 1..] == labels[..n][k + 1..] + [labels[n]];
      ServedNext(before, labels[..n][k + 1..], labels[n], c, filter, wants);
    }
  }

  // ---- the log ----

  /** The matching messages of a log, oldest first. */
  function Select<F(!new), M(!new)>(log: seq<M>, filter: F, wants: (F, M) -> bool): seq<M> {
    if log == [] then []
    else
      var n := |log| - 1;
      Select(log[..n], filter, wants) + if wants(filter, log[n]) then [log[n]] else []
  }

  /** `iter().rev().filter(..).take(n)` */
  function Recent<F(!new), M(!new)>(log: seq<M>, filter: F, wants: (F, M) -> bool, n: nat): seq<M>
    decreases |log|
  {
    if log == [] || n == 0 then []
    else
      var last := |log| - 1;
      if wants(filter, log[last]) then [log[last]] + Recent(log[..last], filter, wants, n - 1)
      else Recent(log[..last], filter, wants, n)
  }

  /** `iter().rev().find(..)` */
  function Latest<F(!new), M(!new)>(log: seq<M>, filter: F, wants: (F, M) -> bool): Option<M> {
    if log == [] then None
    else
      var last := |log| - 1;
      if wants(filter, log[last]) then Some(log[last]) else Latest(log[..last], filter, wants)
  }

  /** The recent messages are the last `n` matching ones, newest first, and the latest is the first of them. */
  lemma {:induction false} RecentIsTail<F(!new), M(!new)>(log: seq<M>, filter: F, wants: (F, M) -> bool, n: nat)
    ensures var (all, recent) := (Select(log, filter, wants), Recent(log, filter, wants, n));
            && |recent| == (if |all| < n then |all| else n)
            && (forall i | 0 <= i < |recent| :: recent[i] == all[|all| - 1 - i])
            && (n > 0 ==> Latest(log, filter, wants) == if recent == [] then None else Some(recent[0]))
    decreases |log|
  {
    if log != [] && n > 0 {
      var last := |log| - 1;
      RecentIsTail(log[..last], filter, wants, if wants(filter, log[last]) then n - 1 else n);
      if wants(filter, log[last]) {
        var all := Select(log[..last], filter, wants);
        assert Select(log, filter, wants) == all + [log[last]];
      }
    }
  }

  /** The matching part of the log is what matched before plus what the run published. */
  lemma {:induction false} LogGrows<F(!new), M(!new)>(log: seq<M>, labels: seq<Label<F, M>>, filter: F,
                                                     wants: (F, M) -> bool)
    ensures Select(After(log, labels, wants).log, filter, wants) == Select(log, filter, wants) + Matching(labels, filter, wants)
  {
    if labels != [] {
      var n := |labels| - 1;
      var before := After(log, labels[..n], wants);
      LogGrows(log, labels[..n], filter, wants);
      hide Retain;
      match labels[n] {
        case Publish(message) =>
          assert (before.log + [message])[..|before.log|] == before.log;
        case _ =>
      }
    }
  }

  lemma {:induction false} MatchingConcat<F(!new), M(!new)>(a: seq<Label<F, M>>, b: seq<Label<F, M>>, filter: F,
                                                          wants: (F, M) -> bool)
    ensures Matching(a + b, filter, wants) == Matching(a, filter, wants) + Matching(b, filter, wants)
  {
    if b == [] {
      assert a + b == a;
    } else {
      var n := |b| - 1;
      assert (a + b)[..|a| + n] == a + b[..n];
      MatchingConcat(a, b[..n], filter, wants);
    }
  }

  /**
   What a connected subscriber has received is the newest part of the log for its filter; if that is not empty
   its last message is the latest one.
   */
  lemma LiveSubscribersAreUpToDate<F(!new), M(!new)>(log: seq<M>, labels: seq<Label<F, M>>, k: nat,
                                                     wants: (F, M) -> bool)
    requires k < |labels| && labels[k].Subscribe? && Disconnect(Count(labels[..k])) !in labels[k + 1..]
    ensures var (h, c, filter) := (After(log, labels, wants), Count(labels[..k]), labels[k].filter);
            && c < |h.channels|
            && var (received, all) := (h.channels[c].received, Select(h.log, filter, wants));
            && |received| <= |all| && all[|all| - |received|..] == received
            && (received != [] ==> Latest(h.log, filter, wants) == Some(received[|received| - 1]))
  {
    var (h, c, filter) := (After(log, labels, wants), Count(labels[..k]), labels[k].filter);
    SubscribersGetExactlyTheirs(log, labels, k, wants);
    UntilIs(labels[k + 1..], c);
    LogGrows(log, labels, filter, wants);
    assert labels == labels[..k + 1] + labels[k + 1..];
    MatchingConcat(labels[..k + 1], labels[k + 1..], filter, wants);
    RecentIsTail(h.log, filter, wants, 1);
    hide After, Select, Matching, Until, Recent, Latest;
  }
}
