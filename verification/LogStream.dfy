/** The log stream of one cluster: GetClusterLog as interleaved steps of three threads.

    The informer runs the add/update/delete callbacks one at a time; the sync waiter polls HasSynced and then
    sets the cacheSynced flag; the caller runs the controller until stop is closed, and its deferred function
    closes stop unless it is closed already. Closing a closed channel panics, so stop must never be closed
    twice. Only two things are assumed of the informer: a callback starts only when the previous one has
    returned, and HasSynced is true only once every item of the initial list has been handled. Of the
    controller: Run returns only after stop has been closed. */
module LogStream {
  import opened Wrappers

  const FINISH_KEY: string := "bke.bocloud.com/complete"
  const EVENT_KEY: string := "bke.bocloud.com/event"

  // A core/v1 Event; text is the message line formatted from its time, type, reason and message.
  datatype Event = Event(annotations: Option<map<string, string>>, text: string) {
    predicate IsFinish() { annotations.Some? && FINISH_KEY in annotations.value }
    predicate IsProgress() { annotations.Some? && EVENT_KEY in annotations.value && !IsFinish() }
  }

  // What the informer hands to a callback; Foreign is an added object that is not an Event.
  datatype Notice = Added(event: Event) | Foreign | Updated | Deleted {
    predicate IsFinish() { Added? && event.IsFinish() }
    predicate IsAnnotated() { Added? && (event.IsFinish() || event.IsProgress()) }
  }

  // One callback, in the order of delivery: whether its item came from the initial list, whether cacheSynced
  // was already set when it was delivered, and what its load of cacheSynced read (finish events only).
  datatype Delivery = Delivery(notice: Notice, listed: bool, late: bool, sawFlag: bool)

  // The running callback: about to write its message, to load the flag, to test stop, or to close it.
  datatype Callback = Idle | Writing | Loading | Testing | Closing

  datatype Waiter = Polling | Storing | Exited

  datatype Caller = Running | DeferTesting | DeferClosing | Returned

  datatype Stream = Stream(
    list: seq<Notice>,        // initial-list items not handed out yet
    callback: Callback,
    waiter: Waiter,
    synced: bool,             // cacheSynced
    closes: nat,              // how often stop has been closed
    caller: Caller,
    deliveries: seq<Delivery>,
    written: seq<string>,     // messages passed to conn.WriteMessage
    closer: Option<nat>       // the delivery whose callback closed stop
  )

  datatype Step =
    | DeliverListed
    | DeliverWatched(notice: Notice)
    | CallbackStep
    | WaiterSeesSync
    | WaiterStores
    | WaiterGivesUp
    | RunReturns
    | DeferTests
    | DeferCloses

  function Start(list: seq<Notice>): Stream {
    Stream(list, Idle, Polling, false, 0, Running, [], [], None)
  }

  // The current callback handles an item of the initial list.
  predicate HandlingListed(s: Stream) {
    s.callback != Idle && s.deliveries != [] && s.deliveries[|s.deliveries| - 1].listed
  }

  predicate Enabled(s: Stream, step: Step) {
    match step
    case DeliverListed => s.callback == Idle && s.list != []
    case DeliverWatched(_) => s.callback == Idle
    case CallbackStep => s.callback != Idle && s.deliveries != []
    case WaiterSeesSync => s.waiter == Polling && s.list == [] && !HandlingListed(s)
    case WaiterStores => s.waiter == Storing
    case WaiterGivesUp => s.waiter == Polling && s.closes > 0
    case RunReturns => s.caller == Running && s.closes > 0
    case DeferTests => s.caller == DeferTesting
    case DeferCloses => s.caller == DeferClosing
  }

  // The callbacks for anything but an annotated added event do nothing that matters here.
  function Deliver(s: Stream, n: Notice, listed: bool): Stream {
    s.(deliveries := s.deliveries + [Delivery(n, listed, s.synced, false)],
       callback := if n.IsAnnotated() then Writing else Idle)
  }

  function Next(s: Stream, step: Step): Stream
    requires Enabled(s, step)
  {
    match step
    case DeliverListed => Deliver(s, s.list[0], true).(list := s.list[1..])
    case DeliverWatched(n) => Deliver(s, n, false)
    case CallbackStep =>
      var last := |s.deliveries| - 1;
      var d := s.deliveries[last];
      (match s.callback
       case Writing =>
         s.(written := s.written + [if d.notice.Added? then d.notice.event.text else ""],
            callback := if d.notice.IsFinish() then Loading else Idle)
       case Loading =>
         s.(deliveries := s.deliveries[last := d.(sawFlag := s.synced)],
            callback := if s.synced then Testing else Idle)
       case Testing => s.(callback := if s.closes == 0 then Closing else Idle)
       case Closing => s.(closes := s.closes + 1, closer := Some(last), callback := Idle)
       case Idle => s)
    case WaiterSeesSync => s.(waiter := Storing)
    case WaiterStores => s.(synced := true, waiter := Exited)
    case WaiterGivesUp => s.(waiter := Exited)
    case RunReturns => s.(caller := DeferTesting)
    case DeferTests => s.(caller := if s.closes == 0 then DeferClosing else Returned)
    case DeferCloses => s.(closes := s.closes + 1, caller := Returned)
  }

  // The state after a run; None when some step was not enabled.
  function Run(s: Stream, steps: seq<Step>): Option<Stream> {
    if steps == [] then Some(s)
    else
      var before := Run(s, steps[..|steps| - 1]);
      var step := steps[|steps| - 1];
      if before.Some? && Enabled(before.value, step) then Some(Next(before.value, step)) else None
  }

  // ---------- the invariant ----------

  // The messages of the annotated events among the deliveries, in order, once each.
  function Messages(deliveries: seq<Delivery>): seq<string> {
    if deliveries == [] then []
    else
      var n := deliveries[|deliveries| - 1].notice;
      Messages(deliveries[..|deliveries| - 1]) + (if n.IsAnnotated() then [n.event.text] else [])
  }

  // The deliveries whose callbacks have returned.
  function Completed(s: Stream): seq<Delivery> {
    if s.callback != Idle && s.deliveries != [] then s.deliveries[..|s.deliveries| - 1] else s.deliveries
  }

  // Delivery i is a finish event from the watch whose load of the flag read true.
  predicate Closes(d: Delivery) {
    d.notice.IsFinish() && !d.listed && d.sawFlag
  }

  ghost predicate DeliveriesFit(s: Stream) {
    forall i :: 0 <= i < |s.deliveries| ==>
      var d := s.deliveries[i];
      && (d.listed ==> !d.late && !d.sawFlag)
      && (d.late ==> s.synced)
      && (d.sawFlag ==> s.synced && d.notice.IsFinish())
      && (i < |Completed(s)| && d.notice.IsFinish() && d.late ==> d.sawFlag)
  }

  ghost predicate CallbackFits(s: Stream) {
    && (s.callback != Idle ==> s.deliveries != [])
    && (s.callback != Idle ==>
          var d := s.deliveries[|s.deliveries| - 1];
          && d.notice.IsAnnotated()
          && (s.callback != Writing ==> d.notice.IsFinish())
          && (d.sawFlag <==> s.callback in {Testing, Closing})
          && (s.callback == Closing ==> s.closes == 0))
    && s.written == Messages(if s.callback == Writing then Completed(s) else s.deliveries)
  }

  // stop is open, or was closed once, by the first completed callback that read the flag as set.
  ghost predicate StopFits(s: Stream) {
    match s.closer
    case None =>
      && s.closes == 0 && s.caller == Running
      && forall j :: 0 <= j < |Completed(s)| ==> !s.deliveries[j].sawFlag
    case Some(i) =>
      && s.closes == 1 && s.caller != DeferClosing
      && i < |Completed(s)| && Closes(s.deliveries[i])
      && forall j :: 0 <= j < i ==> !s.deliveries[j].sawFlag
  }

  ghost predicate Inv(s: Stream) {
    && DeliveriesFit(s)
    && CallbackFits(s)
    && StopFits(s)
    && (s.synced || s.waiter == Storing ==> s.list == [] && !HandlingListed(s))
  }

  // A delivery appends to the history and starts the next callback.
  lemma DeliverFrame(s: Stream, n: Notice, listed: bool, t: Stream)
    requires Inv(s) && s.callback == Idle && t == Deliver(s, n, listed)
    ensures |t.deliveries| == |s.deliveries| + 1
    ensures forall i :: 0 <= i < |s.deliveries| ==> t.deliveries[i] == s.deliveries[i]
    ensures t.deliveries[|s.deliveries|] == Delivery(n, listed, s.synced, false)
    ensures t.deliveries[..|s.deliveries|] == s.deliveries
    ensures Completed(s) == s.deliveries
    ensures Completed(t) == if t.callback == Idle then t.deliveries else s.deliveries
  {
  }

  lemma DeliverKeepsDeliveries(s: Stream, n: Notice, listed: bool, t: Stream)
    requires Inv(s) && s.callback == Idle && t == Deliver(s, n, listed)
    requires listed ==> !s.synced
    ensures DeliveriesFit(t)
  {
    DeliverFrame(s, n, listed, t);
  }

  lemma DeliverKeepsRest(s: Stream, n: Notice, listed: bool, t: Stream)
    requires Inv(s) && s.callback == Idle && t == Deliver(s, n, listed)
    ensures CallbackFits(t) && StopFits(t)
  {
    DeliverFrame(s, n, listed, t);
  }

  // Taking an item off the list is invisible to the rest of the state.
  lemma ListIsApart(s: Stream, t: Stream)
    requires t == s.(list := t.list)
    ensures DeliveriesFit(s) == DeliveriesFit(t) && CallbackFits(s) == CallbackFits(t) && StopFits(s) == StopFits(t)
  {
    assert Completed(s) == Completed(t);
  }

  lemma DeliverKeeps(s: Stream, n: Notice, listed: bool)
    requires Inv(s) && s.callback == Idle
    requires listed ==> s.list != []
    ensures Inv(Deliver(s, n, listed))
    ensures listed ==> Inv(Deliver(s, n, listed).(list := s.list[1..]))
  {
    var t := Deliver(s, n, listed);
    DeliverFrame(s, n, listed, t);
    DeliverKeepsDeliveries(s, n, listed, t);
    DeliverKeepsRest(s, n, listed, t);
    if listed {
      ListIsApart(t, t.(list := s.list[1..]));
    }
  }

  // What a callback step leaves alone: every delivery but the current one.
  lemma CallbackFrame(s: Stream, t: Stream)
    requires Inv(s) && s.callback != Idle && t == Next(s, CallbackStep)
    ensures |t.deliveries| == |s.deliveries|
    ensures forall i :: 0 <= i < |s.deliveries| - 1 ==> t.deliveries[i] == s.deliveries[i]
    ensures t.deliveries[..|s.deliveries| - 1] == Completed(s)
    ensures t.deliveries[|s.deliveries| - 1].notice == s.deliveries[|s.deliveries| - 1].notice
    ensures t.deliveries[|s.deliveries| - 1].listed == s.deliveries[|s.deliveries| - 1].listed
    ensures Completed(t) == if t.callback == Idle then t.deliveries else Completed(s)
  {
  }

  lemma CallbackKeepsDeliveries(s: Stream, t: Stream)
    requires Inv(s) && s.callback != Idle && t == Next(s, CallbackStep)
    ensures DeliveriesFit(t)
  {
    CallbackFrame(s, t);
  }

  lemma CallbackKeepsCallback(s: Stream, t: Stream)
    requires Inv(s) && s.callback != Idle && t == Next(s, CallbackStep)
    ensures CallbackFits(t)
  {
    CallbackFrame(s, t);
    MessagesIgnoreFlags(s.deliveries, t.deliveries);
  }

  lemma {:induction false} MessagesIgnoreFlags(a: seq<Delivery>, b: seq<Delivery>)
    requires |a| == |b| && forall i :: 0 <= i < |a| ==> a[i].notice == b[i].notice
    ensures Messages(a) == Messages(b)
  {
    if a != [] {
      MessagesIgnoreFlags(a[..|a| - 1], b[..|b| - 1]);
    }
  }

  lemma CallbackKeepsStop(s: Stream, t: Stream)
    requires Inv(s) && s.callback != Idle && t == Next(s, CallbackStep)
    ensures StopFits(t)
  {
    CallbackFrame(s, t);
  }

  lemma CallbackKeeps(s: Stream)
    requires Inv(s) && s.callback != Idle
    ensures Inv(Next(s, CallbackStep))
  {
    var t := Next(s, CallbackStep);
    CallbackFrame(s, t);
    CallbackKeepsDeliveries(s, t);
    CallbackKeepsCallback(s, t);
    CallbackKeepsStop(s, t);
  }

  // The waiter and the caller touch neither the history nor the callback.
  lemma OthersKeep(s: Stream, step: Step)
    requires Inv(s) && Enabled(s, step)
    requires !step.DeliverListed? && !step.DeliverWatched? && !step.CallbackStep?
    ensures Inv(Next(s, step))
  {
    var t := Next(s, step);
    assert t.deliveries == s.deliveries && t.callback == s.callback && t.list == s.list && t.written == s.written;
    assert Completed(t) == Completed(s);
  }

  lemma StepKeeps(s: Stream, step: Step)
    requires Inv(s) && Enabled(s, step)
    ensures Inv(Next(s, step))
  {
    match step
    case DeliverListed => DeliverKeeps(s, s.list[0], true);
    case DeliverWatched(n) => DeliverKeeps(s, n, false);
    case CallbackStep => CallbackKeeps(s);
    case _ => OthersKeep(s, step);
  }

  lemma {:induction false} RunKeeps(list: seq<Notice>, steps: seq<Step>)
    requires Run(Start(list), steps).Some?
    ensures Inv(Run(Start(list), steps).value)
  {
    if steps != [] {
      RunKeeps(list, steps[..|steps| - 1]);
      StepKeeps(Run(Start(list), steps[..|steps| - 1]).value, steps[|steps| - 1]);
    }
  }

  // ---------- what every interleaving guarantees ----------

  ghost predicate Reachable(list: seq<Notice>, s: Stream) {
    exists steps :: Run(Start(list), steps) == Some(s)
  }

  lemma ReachableInv(list: seq<Notice>, s: Stream)
    requires Reachable(list, s)
    ensures Inv(s)
  {
    var steps :| Run(Start(list), steps) == Some(s);
    RunKeeps(list, steps);
  }

  // stop is closed at most once; the deferred close never runs.
  lemma ClosedAtMostOnce(list: seq<Notice>, s: Stream)
    requires Reachable(list, s)
    ensures s.closes <= 1 && s.caller != DeferClosing
    ensures s.callback == Closing ==> s.closes == 0
  {
    ReachableInv(list, s);
  }

  // Between callbacks, stop is closed exactly when some finish event has read the flag as set. The closer is
  // the first such event, it is not from the initial list, and no finish event from there ever reads the flag.
  lemma ClosedByFirstSynced(list: seq<Notice>, s: Stream)
    requires Reachable(list, s) && s.callback == Idle
    ensures s.closes == 1 <==> exists i :: 0 <= i < |s.deliveries| && s.deliveries[i].sawFlag
    ensures s.closes == 1 ==>
              && s.closer.Some? && s.closer.value < |s.deliveries| && Closes(s.deliveries[s.closer.value])
              && forall j :: 0 <= j < s.closer.value ==> !s.deliveries[j].sawFlag
    ensures forall i :: 0 <= i < |s.deliveries| && s.deliveries[i].listed ==> !s.deliveries[i].sawFlag
  {
    ReachableInv(list, s);
    ClosedByFlag(s);
  }

  lemma ClosedByFlag(s: Stream)
    requires DeliveriesFit(s) && StopFits(s) && s.callback == Idle
    ensures s.closes == 1 <==> exists i :: 0 <= i < |s.deliveries| && s.deliveries[i].sawFlag
    ensures s.closes == 1 ==>
              && s.closer.Some? && s.closer.value < |s.deliveries| && Closes(s.deliveries[s.closer.value])
              && forall j :: 0 <= j < s.closer.value ==> !s.deliveries[j].sawFlag
    ensures forall i :: 0 <= i < |s.deliveries| && s.deliveries[i].listed ==> !s.deliveries[i].sawFlag
  {
    assert Completed(s) == s.deliveries;
  }

  // A finish event delivered after cacheSynced was set leaves stop closed when its callback returns.
  lemma FinishAfterSyncCloses(list: seq<Notice>, s: Stream, i: nat)
    requires Reachable(list, s) && i < |Completed(s)|
    requires Carries(s.deliveries[i].notice, "bke.bocloud.com/complete") && s.deliveries[i].late
    ensures s.closes == 1
  {
    ReachableInv(list, s);
    assert Completed(s)[i] == s.deliveries[i];
  }

  // The call returns only after a finish event from the watch has read the flag as set and closed stop.
  lemma ReturnsOnlyAfterFinish(list: seq<Notice>, s: Stream)
    requires Reachable(list, s) && s.caller == Returned
    ensures s.closes == 1
    ensures exists i :: 0 <= i < |Completed(s)| && Closes(s.deliveries[i])
                        && Carries(s.deliveries[i].notice, "bke.bocloud.com/complete")
  {
    ReachableInv(list, s);
    assert Closes(s.deliveries[s.closer.value]);
  }

  // Between callbacks, the messages written are those of the annotated events delivered, in order, once each.
  lemma MessagesAreDelivered(list: seq<Notice>, s: Stream)
    requires Reachable(list, s)
    ensures s.callback == Idle ==> s.written == Messages(s.deliveries)
    ensures s.callback != Idle ==> s.written == Messages(Completed(s)) || s.written == Messages(s.deliveries)
  {
    ReachableInv(list, s);
  }

  // The notice is an added event that carries this annotation.
  ghost predicate Carries(n: Notice, key: string) {
    n.Added? && n.event.annotations.Some? && key in n.event.annotations.value
  }

  // The events whose messages a client is to see.
  ghost predicate Logged(n: Notice) {
    Carries(n, "bke.bocloud.com/complete") || Carries(n, "bke.bocloud.com/event")
  }

  // written is the texts of the logged deliveries, which are exactly those at the positions at, in order.
  ghost predicate Writes(deliveries: seq<Delivery>, at: seq<nat>, written: seq<string>) {
    && |at| == |written|
    && (forall k :: 0 <= k < |at| ==> at[k] < |deliveries| && Logged(deliveries[at[k]].notice)
                                      && written[k] == deliveries[at[k]].notice.event.text)
    && (forall j, k :: 0 <= j < k < |at| ==> at[j] < at[k])
    && (forall i: nat :: i < |deliveries| && Logged(deliveries[i].notice) ==> i in at)
  }

  lemma WritesSnoc(deliveries: seq<Delivery>, at: seq<nat>, written: seq<string>, d: Delivery)
    requires Writes(deliveries, at, written)
    ensures Logged(d.notice) ==> Writes(deliveries + [d], at + [|deliveries|], written + [d.notice.event.text])
    ensures !Logged(d.notice) ==> Writes(deliveries + [d], at, written)
  {
    var all := deliveries + [d];
    assert forall i :: 0 <= i < |deliveries| ==> all[i] == deliveries[i];
    assert forall i: nat :: i in at + [|deliveries|] <==> i in at || i == |deliveries|;
  }

  lemma {:induction false} MessagesAreLogged(deliveries: seq<Delivery>) returns (at: seq<nat>)
    ensures Writes(deliveries, at, Messages(deliveries))
  {
    at := [];
    if deliveries != [] {
      var n := |deliveries| - 1;
      at := MessagesAreLogged(deliveries[..n]);
      WritesSnoc(deliveries[..n], at, Messages(deliveries[..n]), deliveries[n]);
      assert deliveries == deliveries[..n] + [deliveries[n]];
      if Logged(deliveries[n].notice) { at := at + [n]; }
    }
  }

  // Between callbacks the client has been sent the texts of exactly the added events that carry the finish or the
  // event annotation, in the order of their delivery and once each.
  lemma LoggedEventsAreWritten(list: seq<Notice>, s: Stream) returns (at: seq<nat>)
    requires Reachable(list, s) && s.callback == Idle
    ensures Writes(s.deliveries, at, s.written)
  {
    MessagesAreDelivered(list, s);
    at := MessagesAreLogged(s.deliveries);
  }

  // The notices that came from the initial list, in order of delivery.
  function ListedNotices(deliveries: seq<Delivery>): seq<Notice> {
    if deliveries == [] then []
    else
      var d := deliveries[|deliveries| - 1];
      ListedNotices(deliveries[..|deliveries| - 1]) + (if d.listed then [d.notice] else [])
  }

  lemma {:induction false} ListedIgnoresFlags(a: seq<Delivery>, b: seq<Delivery>)
    requires |a| == |b| && forall i :: 0 <= i < |a| ==> a[i].notice == b[i].notice && a[i].listed == b[i].listed
    ensures ListedNotices(a) == ListedNotices(b)
  {
    if a != [] {
      ListedIgnoresFlags(a[..|a| - 1], b[..|b| - 1]);
    }
  }

  lemma StepHandsOut(s: Stream, step: Step)
    requires Enabled(s, step)
    ensures ListedNotices(Next(s, step).deliveries) + Next(s, step).list == ListedNotices(s.deliveries) + s.list
  {
    var t := Next(s, step);
    if step.DeliverListed? || step.DeliverWatched? {
      assert t.deliveries[..|s.deliveries|] == s.deliveries;
    } else if step.CallbackStep? {
      ListedIgnoresFlags(s.deliveries, t.deliveries);
    }
  }

  // The deliveries marked as listed are the initial list, handed out in order; the rest of it is still to come.
  lemma {:induction false} ListIsHandedOut(list: seq<Notice>, steps: seq<Step>)
    requires Run(Start(list), steps).Some?
    ensures var s := Run(Start(list), steps).value; ListedNotices(s.deliveries) + s.list == list
  {
    if steps != [] {
      var before := steps[..|steps| - 1];
      ListIsHandedOut(list, before);
      StepHandsOut(Run(Start(list), before).value, steps[|steps| - 1]);
    }
  }

  // ---------- the call ends ----------

  predicate IsCallerStep(step: Step) {
    step.RunReturns? || step.DeferTests? || step.DeferCloses?
  }

  function CallerStep(s: Stream): Step {
    if s.caller == Running then RunReturns else if s.caller == DeferTesting then DeferTests else DeferCloses
  }

  // How many steps the caller has to go once stop is closed.
  function CallerLeft(s: Stream): nat {
    match s.caller
    case Running => 2
    case DeferTesting => 1
    case DeferClosing => 1
    case Returned => 0
  }

  // How many steps the callback of a finish event has to go until stop is closed.
  function CallbackLeft(s: Stream): nat {
    match s.callback
    case Idle => 0
    case Writing => 4
    case Loading => 3
    case Testing => 2
    case Closing => 1
  }

  function Count(steps: seq<Step>, which: Step -> bool): nat {
    if steps == [] then 0
    else Count(steps[..|steps| - 1], which) + (if which(steps[|steps| - 1]) then 1 else 0)
  }

  lemma {:induction false} RunFromKeeps(s: Stream, steps: seq<Step>)
    requires Inv(s) && Run(s, steps).Some?
    ensures Inv(Run(s, steps).value)
  {
    if steps != [] {
      RunFromKeeps(s, steps[..|steps| - 1]);
      StepKeeps(Run(s, steps[..|steps| - 1]).value, steps[|steps| - 1]);
    }
  }

  // While stop is closed nobody is about to close it.
  ghost predicate StopRests(s: Stream) {
    s.closes == 1 && s.callback != Closing && s.caller != DeferClosing
  }

  lemma ClosedRests(s: Stream)
    requires Inv(s) && s.closes == 1
    ensures StopRests(s) && (s.caller != Returned ==> Enabled(s, CallerStep(s)))
  {
  }

  lemma CallerProceeds(s: Stream, step: Step)
    requires StopRests(s) && Enabled(s, step)
    ensures var t := Next(s, step);
            t.closes == 1 && CallerLeft(s) == CallerLeft(t) + (if IsCallerStep(step) then 1 else 0)
  {
    if step.CallbackStep? {
      assert Next(s, step).closes == s.closes && Next(s, step).caller == s.caller;
    }
  }

  // Once stop is closed, whatever the threads do: until the call has returned the caller's next step stays
  // enabled, no step of another thread undoes its progress, and it returns with exactly the last of its steps.
  lemma {:induction false} ClosedCallReturns(s: Stream, steps: seq<Step>)
    requires Inv(s) && s.closes == 1 && Run(s, steps).Some?
    ensures var t := Run(s, steps).value;
            && t.closes == 1
            && CallerLeft(s) == CallerLeft(t) + Count(steps, IsCallerStep)
            && (t.caller != Returned ==> Enabled(t, CallerStep(t)))
  {
    RunFromKeeps(s, steps);
    if steps != [] {
      var before := steps[..|steps| - 1];
      ClosedCallReturns(s, before);
      RunFromKeeps(s, before);
      ClosedRests(Run(s, before).value);
      CallerProceeds(Run(s, before).value, steps[|steps| - 1]);
    }
    ClosedRests(Run(s, steps).value);
  }

  // The finish event under way will close stop: its callback is where so many steps have taken it.
  ghost predicate WillClose(s: Stream, taken: nat) {
    s.closes == 0 ==>
      && s.synced && s.deliveries != [] && s.deliveries[|s.deliveries| - 1].notice.IsFinish()
      && s.callback != Idle && CallbackLeft(s) + taken == 4
  }

  lemma StillWillClose(s: Stream, taken: nat, step: Step)
    requires Inv(s) && Enabled(s, step) && WillClose(s, taken)
    ensures WillClose(Next(s, step), taken + if step.CallbackStep? then 1 else 0)
  {
  }

  // A finish event delivered after the flag was set, in every interleaving: until stop is closed its callback
  // always has an enabled step, and it closes stop with its fourth step at the latest; from then on the caller has
  // one, until it has returned.
  lemma FinishEndsEveryRun(list: seq<Notice>, s: Stream, finish: Notice, steps: seq<Step>)
    requires Reachable(list, s) && s.synced && s.callback == Idle && Carries(finish, "bke.bocloud.com/complete")
    requires Run(Next(s, DeliverWatched(finish)), steps).Some?
    ensures var t := Run(Next(s, DeliverWatched(finish)), steps).value;
            && (t.closes == 0 ==> Enabled(t, CallbackStep) && Count(steps, IsCallbackStep) < 4)
            && (t.closes != 0 && t.caller != Returned ==> Enabled(t, CallerStep(t)))
  {
    ReachableInv(list, s);
    var u := Next(s, DeliverWatched(finish));
    StepKeeps(s, DeliverWatched(finish));
    RunFromKeeps(u, steps);
    RunWillClose(u, steps);
  }

  predicate IsCallbackStep(step: Step) {
    step.CallbackStep?
  }

  lemma {:induction false} RunWillClose(s: Stream, steps: seq<Step>)
    requires Inv(s) && WillClose(s, 0) && Run(s, steps).Some?
    ensures WillClose(Run(s, steps).value, Count(steps, IsCallbackStep))
  {
    if steps != [] {
      var before := steps[..|steps| - 1];
      RunWillClose(s, before);
      RunFromKeeps(s, before);
      StillWillClose(Run(s, before).value, Count(before, IsCallbackStep), steps[|steps| - 1]);
    }
  }

  // Such a run exists: once the flag is set, one finish event can end the call: its callback
  // closes stop and the caller returns.
  lemma FinishEndsCall(list: seq<Notice>, s: Stream, finish: Notice) returns (t: Stream)
    requires Reachable(list, s) && s.synced && s.callback == Idle && s.caller == Running && s.closes == 0
    requires Carries(finish, "bke.bocloud.com/complete")
    ensures Reachable(list, t) && t.caller == Returned && t.closes == 1
    ensures t.written == s.written + [finish.event.text]
  {
    var steps :| Run(Start(list), steps) == Some(s);
    var more := steps;
    more, t := Extend(list, more, s, DeliverWatched(finish));
    more, t := Extend(list, more, t, CallbackStep);
    more, t := Extend(list, more, t, CallbackStep);
    more, t := Extend(list, more, t, CallbackStep);
    more, t := Extend(list, more, t, CallbackStep);
    more, t := Extend(list, more, t, RunReturns);
    more, t := Extend(list, more, t, DeferTests);
  }

  lemma {:induction false} DrainList(list: seq<Notice>, k: nat) returns (steps: seq<Step>)
    requires forall n :: n in list ==> !n.IsAnnotated()
    requires k <= |list|
    ensures Run(Start(list), steps).Some?
    ensures var s := Run(Start(list), steps).value;
            s.(deliveries := []) == Start(list).(list := list[k..])
    ensures var s := Run(Start(list), steps).value; |s.deliveries| == k && Messages(s.deliveries) == []
  {
    steps := [];
    if k > 0 {
      var before := DrainList(list, k - 1);
      var s := Run(Start(list), before).value;
      assert s.list == list[k - 1..] && s.list[0] == list[k - 1] && s.list[1..] == list[k..];
      var t;
      steps, t := Extend(list, before, s, DeliverListed);
      DeliverySaysNothing(s, t, s.list[0]);
    }
  }

  lemma DeliverySaysNothing(s: Stream, t: Stream, n: Notice)
    requires !n.IsAnnotated() && t.deliveries == s.deliveries + [Delivery(n, true, s.synced, false)]
    ensures Messages(t.deliveries) == Messages(s.deliveries)
  {
    assert t.deliveries[..|s.deliveries|] == s.deliveries;
  }

  // The waiter sees HasSynced and sets the flag in two separate steps: a finish event of the watch handled in
  // between is written but never closes stop, and the flag set afterwards does not make up for it.
  lemma FinishBeforeFlagIsLost(list: seq<Notice>, finish: Notice) returns (s: Stream)
    requires forall n :: n in list ==> !Logged(n)
    requires Carries(finish, "bke.bocloud.com/complete")
    ensures Reachable(list, s) && s.callback == Idle && s.synced
    ensures s.deliveries != [] && s.deliveries[|s.deliveries| - 1].notice == finish
    ensures !s.deliveries[|s.deliveries| - 1].listed
    ensures s.written == [finish.event.text] && s.closes == 0
  {
    var s0 := DrainList(list, |list|);
    var steps := s0;
    s := Run(Start(list), steps).value;
    steps, s := Extend(list, steps, s, WaiterSeesSync);
    steps, s := Extend(list, steps, s, DeliverWatched(finish));
    steps, s := Extend(list, steps, s, CallbackStep);
    steps, s := Extend(list, steps, s, CallbackStep);
    steps, s := Extend(list, steps, s, WaiterStores);
  }

  lemma Extend(list: seq<Notice>, steps: seq<Step>, s: Stream, step: Step) returns (more: seq<Step>, t: Stream)
    requires Run(Start(list), steps) == Some(s) && Enabled(s, step)
    ensures t == Next(s, step) && Run(Start(list), more) == Some(t)
  {
    more, t := steps + [step], Next(s, step);
    assert more[..|steps|] == steps;
  }
}
