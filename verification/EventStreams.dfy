/**
 The event stream of the agent loop: a history of typed events, and subscriptions that
 deliver matching events to their listeners as they are emitted.
 */
module EventStreams {
  import opened Wrappers

  datatype EventType =
    | ReasoningStarted | ReasoningCompleted | ToolSelected | ToolExecutionStarted
    | ToolExecutionCompleted | ObservationProduced | StateUpdated | ContextRebuilt
    | LoopCompleted | LoopFailed | PermissionDenied

  datatype LoopEvent = LoopEvent(kind: EventType, iteration: int)

  type ListenerId = nat

  /** A listener and the types it asked for; no filter means every type. */
  datatype Subscription = Subscription(listener: ListenerId, types: Option<set<EventType>>)

  predicate Matches(s: Subscription, e: LoopEvent) {
    s.types.Some? ==> e.kind in s.types.value
  }

  /** What `listener` receives for one event: a copy for each of its matching subscriptions. */
  function Copies(subs: seq<Subscription>, e: LoopEvent, listener: ListenerId): seq<LoopEvent> {
    if subs == [] then []
    else
      var last := subs[|subs| - 1];
      var before := Copies(subs[..|subs| - 1], e, listener);
      if last.listener == listener && Matches(last, e) then before + [e] else before
  }

  /** What `listener` receives for a sequence of events while the subscriptions stay the same. */
  function Delivered(subs: seq<Subscription>, events: seq<LoopEvent>, listener: ListenerId): seq<LoopEvent> {
    if events == [] then []
    else Delivered(subs, events[..|events| - 1], listener) + Copies(subs, events[|events| - 1], listener)
  }

  function Matching(events: seq<LoopEvent>, s: Subscription): seq<LoopEvent> {
    if events == [] then []
    else
      var last := events[|events| - 1];
      var before := Matching(events[..|events| - 1], s);
      if Matches(s, last) then before + [last] else before
  }

  /** `listener` has exactly one subscription, `s`. */
  ghost predicate OnlySubscription(subs: seq<Subscription>, s: Subscription) {
    exists i :: 0 <= i < |subs| && subs[i] == s &&
      forall j :: 0 <= j < |subs| && j != i ==> subs[j].listener != s.listener
  }

  ghost predicate NotSubscribed(subs: seq<Subscription>, listener: ListenerId) {
    forall j :: 0 <= j < |subs| ==> subs[j].listener != listener
  }

  lemma {:induction false} CopiesNone(subs: seq<Subscription>, e: LoopEvent, listener: ListenerId)
    requires NotSubscribed(subs, listener)
    ensures Copies(subs, e, listener) == []
  {
    if subs != [] {
      CopiesNone(subs[..|subs| - 1], e, listener);
    }
  }

  lemma {:induction false} CopiesOne(subs: seq<Subscription>, s: Subscription, e: LoopEvent)
    requires OnlySubscription(subs, s)
    ensures Copies(subs, e, s.listener) == if Matches(s, e) then [e] else []
  {
    var n := |subs| - 1;
    var i :| 0 <= i < |subs| && subs[i] == s &&
      forall j :: 0 <= j < |subs| && j != i ==> subs[j].listener != s.listener;
    if i == n {
      CopiesNone(subs[..n], e, s.listener);
    } else {
      assert subs[..n][i] == s;
      CopiesOne(subs[..n], s, e);
    }
  }

  /** With one subscription, a listener receives exactly the matching events, in order. */
  lemma {:induction false} DeliveredToOne(subs: seq<Subscription>, s: Subscription, events: seq<LoopEvent>)
    requires OnlySubscription(subs, s)
    ensures Delivered(subs, events, s.listener) == Matching(events, s)
  {
    if events != [] {
      DeliveredToOne(subs, s, events[..|events| - 1]);
      CopiesOne(subs, s, events[|events| - 1]);
    }
  }

  /** The matching events are those of the subscribed types, each as often as it was emitted; no types means all. */
  lemma {:induction false} MatchingCounts(events: seq<LoopEvent>, s: Subscription, e: LoopEvent)
    ensures multiset(Matching(events, s))[e] ==
      if s.types == None || e.kind in s.types.value then multiset(events)[e] else 0
  {
    if events != [] {
      var n := |events| - 1;
      MatchingCounts(events[..n], s, e);
      assert events == events[..n] + [events[n]];
    }
  }

  /** The matching events keep their order: those of a later stretch come after those of an earlier one. */
  lemma {:induction false} MatchingConcat(first: seq<LoopEvent>, second: seq<LoopEvent>, s: Subscription)
    ensures Matching(first + second, s) == Matching(first, s) + Matching(second, s)
  {
    if second == [] {
      assert first + second == first;
    } else {
      var n := |second| - 1;
      assert (first + second)[..|first| + n] == first + second[..n];
      MatchingConcat(first, second[..n], s);
    }
  }

  // ---------- Listeners with any number of subscriptions ----------

  /** How many subscriptions of `listener` match the event; equal ones count each. */
  function Holds(subs: seq<Subscription>, e: LoopEvent, listener: ListenerId): nat {
    if subs == [] then 0
    else (if subs[0].listener == listener && Matches(subs[0], e) then 1 else 0) + Holds(subs[1..], e, listener)
  }

  function Repeat(e: LoopEvent, n: nat): seq<LoopEvent> {
    seq(n, _ => e)
  }

  lemma {:induction false} HoldsLast(subs: seq<Subscription>, e: LoopEvent, listener: ListenerId)
    requires subs != []
    ensures var last := subs[|subs| - 1];
      Holds(subs, e, listener) == Holds(subs[..|subs| - 1], e, listener)
        + if last.listener == listener && Matches(last, e) then 1 else 0
  {
    hide Matches;
    if |subs| > 1 {
      HoldsLast(subs[1..], e, listener);
      assert subs[1..][..|subs| - 2] == subs[..|subs| - 1][1..];
    }
  }

  lemma {:induction false} CopiesAreRepeats(subs: seq<Subscription>, e: LoopEvent, listener: ListenerId)
    ensures Copies(subs, e, listener) == Repeat(e, Holds(subs, e, listener))
  {
    hide Matches;
    if subs != [] {
      CopiesAreRepeats(subs[..|subs| - 1], e, listener);
      HoldsLast(subs, e, listener);
    }
  }

  /** Every event, as often as the listener has subscriptions that match it. */
  function Spread(subs: seq<Subscription>, events: seq<LoopEvent>, listener: ListenerId): seq<LoopEvent> {
    if events == [] then []
    else
      var e := events[|events| - 1];
      Spread(subs, events[..|events| - 1], listener) + Repeat(e, Holds(subs, e, listener))
  }

  /** A listener receives each event once for every matching subscription, in order. */
  lemma {:induction false} DeliveredPerSubscription(
      subs: seq<Subscription>, events: seq<LoopEvent>, listener: ListenerId)
    ensures Delivered(subs, events, listener) == Spread(subs, events, listener)
  {
    hide Copies, Holds;
    if events != [] {
      DeliveredPerSubscription(subs, events[..|events| - 1], listener);
      CopiesAreRepeats(subs, events[|events| - 1], listener);
    }
  }

  // ---------- Subscribing, unsubscribing and emitting, on values ----------

  datatype Op = Subscribe(sub: Subscription) | Unsubscribe(sub: Subscription) | Emit(event: LoopEvent)

  datatype Stream = Stream(subs: seq<Subscription>, history: seq<LoopEvent>, inbox: map<ListenerId, seq<LoopEvent>>)

  function Inbox(inbox: map<ListenerId, seq<LoopEvent>>, listener: ListenerId): seq<LoopEvent> {
    if listener in inbox then inbox[listener] else []
  }

  /** The list without its first entry equal to `s`, if there is one. */
  function RemoveFirst(subs: seq<Subscription>, s: Subscription): seq<Subscription> {
    if subs == [] then []
    else if subs[0] == s then subs[1..]
    else [subs[0]] + RemoveFirst(subs[1..], s)
  }

  /** Every listener's inbox has gained its copies of `e`. */
  ghost predicate HasCopies(
      before: map<ListenerId, seq<LoopEvent>>, now: map<ListenerId, seq<LoopEvent>>,
      subs: seq<Subscription>, e: LoopEvent)
  {
    forall l :: Inbox(now, l) == Inbox(before, l) + Copies(subs, e, l)
  }

  ghost predicate Step(st: Stream, op: Op, st': Stream) {
    match op
    case Subscribe(s) => st' == st.(subs := st.subs + [s])
    case Unsubscribe(s) => st' == st.(subs := RemoveFirst(st.subs, s))
    case Emit(e) =>
      && st'.subs == st.subs && st'.history == st.history + [e]
      && HasCopies(st.inbox, st'.inbox, st.subs, e)
  }

  /** `trace` is a run of `ops`: each state follows from the one before. */
  ghost predicate IsRun(trace: seq<Stream>, ops: seq<Op>) {
    |trace| == |ops| + 1 && forall i :: 0 <= i < |ops| ==> Step(trace[i], ops[i], trace[i + 1])
  }

  /** `op` neither subscribes the listener of `s` again nor removes `s`. */
  predicate LeavesAlone(op: Op, s: Subscription) {
    match op
    case Subscribe(other) => other.listener != s.listener
    case Unsubscribe(other) => other.listener != s.listener
    case Emit(_) => true
  }

  lemma {:induction false} RemoveFirstOther(subs: seq<Subscription>, s: Subscription, other: Subscription)
    requires OnlySubscription(subs, s) && other.listener != s.listener
    ensures OnlySubscription(RemoveFirst(subs, other), s)
  {
    var i :| 0 <= i < |subs| && subs[i] == s &&
      forall j :: 0 <= j < |subs| && j != i ==> subs[j].listener != s.listener;
    var r := RemoveFirst(subs, other);
    if subs[0] == other {
      assert r[i - 1] == s;
    } else if i == 0 {
      RemoveKeepsAway(subs[1..], s.listener, other);
      assert r[0] == s;
    } else {
      assert subs[1..][i - 1] == s;
      RemoveFirstOther(subs[1..], s, other);
      var k :| 0 <= k < |r| - 1 && r[1..][k] == s &&
        forall j :: 0 <= j < |r| - 1 && j != k ==> r[1..][j].listener != s.listener;
      assert r[k + 1] == s;
      forall j | 0 <= j < |r| && j != k + 1 ensures r[j].listener != s.listener {
        assert j > 0 ==> r[j] == r[1..][j - 1];
      }
    }
  }

  lemma {:induction false} RemoveKeepsAway(subs: seq<Subscription>, listener: ListenerId, other: Subscription)
    requires NotSubscribed(subs, listener)
    ensures NotSubscribed(RemoveFirst(subs, other), listener)
  {
    if subs != [] && subs[0] != other {
      RemoveKeepsAway(subs[1..], listener, other);
    }
  }

  /** What one step adds for the listener of `s`. */
  function Added(op: Op, s: Subscription): seq<LoopEvent> {
    if op.Emit? && Matches(s, op.event) then [op.event] else []
  }

  lemma StepKeepsOnly(before: Stream, op: Op, after: Stream, s: Subscription)
    requires Step(before, op, after) && OnlySubscription(before.subs, s) && LeavesAlone(op, s)
    ensures OnlySubscription(after.subs, s)
    ensures Inbox(after.inbox, s.listener) == Inbox(before.inbox, s.listener) + Added(op, s)
  {
    match op
    case Subscribe(other) =>
      var i :| 0 <= i < |before.subs| && before.subs[i] == s &&
        forall j :: 0 <= j < |before.subs| && j != i ==> before.subs[j].listener != s.listener;
      assert after.subs[i] == s;
    case Unsubscribe(other) =>
      RemoveFirstOther(before.subs, s, other);
    case Emit(e) =>
      CopiesOne(before.subs, s, e);
  }

  lemma StepExtendsHistory(before: Stream, op: Op, after: Stream, s: Subscription, start: nat)
    requires Step(before, op, after) && start <= |before.history|
    ensures before.history <= after.history
    ensures Matching(after.history[start..], s) == Matching(before.history[start..], s) + Added(op, s)
  {
    if op.Emit? {
      var events := after.history[start..];
      assert events[..|events| - 1] == before.history[start..];
    }
  }

  /**
   From the moment a listener has its one subscription until that is removed, its inbox
   receives exactly the matching events emitted in between, in order and once each.
   */
  lemma {:induction false} ReceivesWhileSubscribed(trace: seq<Stream>, ops: seq<Op>, s: Subscription, n: nat)
    requires IsRun(trace, ops) && n <= |ops|
    requires OnlySubscription(trace[0].subs, s)
    requires forall i :: 0 <= i < n ==> LeavesAlone(ops[i], s)
    ensures OnlySubscription(trace[n].subs, s)
    ensures trace[0].history <= trace[n].history
    ensures Inbox(trace[n].inbox, s.listener) ==
      Inbox(trace[0].inbox, s.listener) + Matching(trace[n].history[|trace[0].history|..], s)
    decreases n
  {
    if n > 0 {
      hide OnlySubscription, Step, Matching, Inbox, Added;
      ReceivesWhileSubscribed(trace, ops, s, n - 1);
      var before, after, op := trace[n - 1], trace[n], ops[n - 1];
      assert Step(before, op, trace[n - 1 + 1]);
      StepKeepsOnly(before, op, after, s);
      StepExtendsHistory(before, op, after, s, |trace[0].history|);
    }
  }

  /** What `listener` receives in the first `n` steps: each event once per matching subscription held then. */
  function Received(trace: seq<Stream>, ops: seq<Op>, listener: ListenerId, n: nat): seq<LoopEvent>
    requires n <= |ops| <= |trace|
  {
    if n == 0 then []
    else if ops[n - 1].Emit? then
      Received(trace, ops, listener, n - 1)
        + Repeat(ops[n - 1].event, Holds(trace[n - 1].subs, ops[n - 1].event, listener))
    else Received(trace, ops, listener, n - 1)
  }

  lemma StepReceives(before: Stream, op: Op, after: Stream, listener: ListenerId)
    requires Step(before, op, after)
    ensures Inbox(after.inbox, listener) == Inbox(before.inbox, listener)
      + if op.Emit? then Repeat(op.event, Holds(before.subs, op.event, listener)) else []
  {
    hide Holds, Copies, Inbox, RemoveFirst, Repeat;
    if op.Emit? {
      CopiesAreRepeats(before.subs, op.event, listener);
    }
  }

  /** Over any run, with subscriptions coming and going, every inbox receives exactly that. */
  lemma {:induction false} ReceivesPerSubscription(trace: seq<Stream>, ops: seq<Op>, listener: ListenerId, n: nat)
    requires IsRun(trace, ops) && n <= |ops|
    ensures Inbox(trace[n].inbox, listener) == Inbox(trace[0].inbox, listener) + Received(trace, ops, listener, n)
  {
    hide Step, Holds, Inbox;
    if n > 0 {
      ReceivesPerSubscription(trace, ops, listener, n - 1);
      assert Step(trace[n - 1], ops[n - 1], trace[n - 1 + 1]);
      StepReceives(trace[n - 1], ops[n - 1], trace[n], listener);
    }
  }

  /**
   Removing a subscription takes away one match, wherever it stands and whoever made it: of two
   equal ones, removing either leaves one.
   */
  lemma {:induction false} RemovalTakesOne(subs: seq<Subscription>, s: Subscription, e: LoopEvent, listener: ListenerId)
    ensures Holds(RemoveFirst(subs, s), e, listener) == Holds(subs, e, listener)
      - if s in subs && s.listener == listener && Matches(s, e) then 1 else 0
  {
    hide Matches;
    if subs != [] && subs[0] != s {
      RemovalTakesOne(subs[1..], s, e, listener);
      assert RemoveFirst(subs, s)[1..] == RemoveFirst(subs[1..], s);
    }
  }

  // ---------- The object ----------

  lemma CopyNext(
      before: map<ListenerId, seq<LoopEvent>>, now: map<ListenerId, seq<LoopEvent>>,
      subs: seq<Subscription>, e: LoopEvent, sub: Subscription)
    requires HasCopies(before, now, subs, e)
    ensures var after := if Matches(sub, e) then now[sub.listener := Inbox(now, sub.listener) + [e]] else now;
      HasCopies(before, after, subs + [sub], e)
  {
    assert (subs + [sub])[..|subs|] == subs;
  }

  class EventStream {
    var listeners: seq<Subscription>
    var history: seq<LoopEvent>
    /** What each listener's callback has been called with. */
    var inbox: map<ListenerId, seq<LoopEvent>>

    ghost function View(): Stream
      reads this
    {
      Stream(listeners, history, inbox)
    }

    constructor ()
      ensures View() == Stream([], [], map[])
    {
      listeners, history, inbox := [], [], map[];
    }

    /** An empty list of types asks for every type. */
    method AddListener(listener: ListenerId, types: set<EventType>) returns (s: Subscription)
      modifies this`listeners
      ensures s == Subscription(listener, if types == {} then None else Some(types))
      ensures Step(old(View()), Subscribe(s), View())
    {
      var filter := if types == {} then None else Some(types);
      s := Subscription(listener, filter);
      listeners := listeners + [s];
    }

    method RemoveListener(s: Subscription)
      modifies this`listeners
      ensures Step(old(View()), Unsubscribe(s), View())
    {
      if s in listeners {
        listeners := RemoveFirst(listeners, s);
      } else {
        RemoveAbsent(listeners, s);
      }
    }

    method EmitEvent(kind: EventType, iteration: int)
      modifies this`history, this`inbox
      ensures Step(old(View()), Emit(LoopEvent(kind, iteration)), View())
    {
      var event := LoopEvent(kind, iteration);
      assert HasCopies(inbox, inbox, [], event);
      hide HasCopies, Inbox;
      history := history + [event];
      for i := 0 to |listeners|
        invariant listeners == old(listeners) && history == old(history) + [event]
        invariant HasCopies(old(inbox), inbox, listeners[..i], event)
      {
        var sub := listeners[i];
        assert listeners[..i + 1] == listeners[..i] + [sub];
        CopyNext(old(inbox), inbox, listeners[..i], event, sub);
        if Matches(sub, event) {
          inbox := inbox[sub.listener := Inbox(inbox, sub.listener) + [event]];
        }
      }
      assert listeners[..|listeners|] == listeners;
    }

    /** The recorded events, of one type if asked. */
    method GetHistory(kind: Option<EventType>) returns (events: seq<LoopEvent>)
      ensures events == if kind.None? then history else Matching(history, Subscription(0, Some({kind.value})))
    {
      if kind.None? {
        return history;
      }
      events := [];
      for i := 0 to |history|
        invariant events == Matching(history[..i], Subscription(0, Some({kind.value})))
      {
        assert history[..i + 1][..i] == history[..i];
        if history[i].kind == kind.value {
          events := events + [history[i]];
        }
      }
      assert history[..|history|] == history;
    }

    static lemma {:induction false} RemoveAbsent(subs: seq<Subscription>, s: Subscription)
      requires s !in subs
      ensures RemoveFirst(subs, s) == subs
    {
      if subs != [] {
        RemoveAbsent(subs[1..], s);
      }
    }
  }
}
