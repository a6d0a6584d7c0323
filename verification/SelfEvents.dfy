/**
 Subscriptions of a cluster member to its own Up and Removed events. The subscribing
 thread runs beside the event stream, which hands over one event at a time; both
 work on a shared state one lock section at a time.
 */
module SelfEvents {
  import opened Options

  type Removal(!new, ==)

  datatype Seen = BeforeUp | Up | Removed(removal: Removal)

  /** The `SelfEventSubscriberState` behind the lock. */
  datatype Shared = Shared(subscriptionId: Option<nat>, replaying: bool, completed: bool, seen: Seen)

  const FRESH: Shared := Shared(None, true, false, BeforeUp)

  // ---------- lock sections ----------

  function Seeded(s: Shared, up: bool): Shared {
    if up && s.seen.BeforeUp? then s.(seen := Up) else s
  }

  predicate CanClaim(role: Role, s: Shared) {
    !s.replaying && !s.completed && (if role.ForUp? then s.seen.Up? else s.seen.Removed?)
  }

  class SelfEventState {
    var subscriptionId: Option<nat>
    var replaying: bool
    var completed: bool
    var seen: Seen

    function Look(): Shared
      reads this
    {
      Shared(subscriptionId, replaying, completed, seen)
    }

    constructor ()
      ensures Look() == FRESH
    {
      subscriptionId, replaying, completed, seen := None, true, false, BeforeUp;
    }

    method SeedFromCurrentState(up: bool)
      modifies this`seen
      ensures Look() == Seeded(old(Look()), up)
    {
      if up && seen.BeforeUp? {
        seen := Up;
      }
    }

    method SetSubscriptionId(id: nat) returns (done: bool)
      modifies this`subscriptionId, this`replaying
      ensures Look() == old(Look()).(subscriptionId := Some(id), replaying := false) && done == completed
    {
      subscriptionId, replaying := Some(id), false;
      return completed;
    }

    method ClaimSelfUp() returns (claim: Option<Option<nat>>)
      modifies this`completed
      ensures claim == if CanClaim(ForUp, old(Look())) then Some(subscriptionId) else None
      ensures completed == (old(completed) || claim.Some?)
    {
      if !replaying && !completed && seen.Up? {
        completed := true;
        return Some(subscriptionId);
      }
      return None;
    }

    method ClaimSelfRemoved() returns (claim: Option<(Option<nat>, Removal)>)
      modifies this`completed
      ensures claim == if CanClaim(ForRemoved, old(Look())) then Some((subscriptionId, seen.removal)) else None
      ensures completed == (old(completed) || claim.Some?)
    {
      match seen {
        case Removed(removal) =>
          if !replaying && !completed {
            completed := true;
            return Some((subscriptionId, removal));
          }
          return None;
        case _ => return None;
      }
    }

    method Complete() returns (id: Option<nat>)
      modifies this`completed
      ensures completed && id == if old(completed) then None else subscriptionId
    {
      if completed {
        return None;
      }
      completed := true;
      return subscriptionId;
    }
  }

  // ---------- the two threads ----------

  datatype Role = ForUp | ForRemoved

  /** Where the event stream is with the event it hands over. */
  datatype EventPhase =
    | Idle
    | Noted(event: Seen)
    | ToComplete
    | ToUnsubscribe(id: Option<nat>)
    | Claimed(event: Seen, id: Option<nat>)

  /** Where `subscribe_self_up` or `subscribe_self_removed` is; `up` is what the state read said. */
  datatype SubscribePhase =
    | Registering
    | Seeding(up: bool)
    | SettingId(up: bool)
    | IdSet(up: bool, completed: bool)
    | ToClaim(up: bool)
    | Telling(told: Seen, id: Option<nat>)
    | Done

  /**
   What happened so far. `removedAtEnd`: Removed was seen last when the replay ended;
   `removedAfter`: it was seen later; `overtaken`: an Up event came in after the replay
   and before anybody claimed or the subscribing thread tried to. `upAtEnd`: when the
   replay ended the subscription was open and Up seen last, as the state read or an
   event still in hand said; `upAfter`: an Up event came in later, on an open
   subscription; `removedFirst`: a removal came in on an open subscription before the
   subscribing thread tried to claim.
   */
  datatype Past = Past(
    removedAtEnd: bool,
    removedAfter: bool,
    overtaken: bool,
    upAtEnd: bool,
    upAfter: bool,
    removedFirst: bool)

  datatype State = State(
    role: Role,
    shared: Shared,
    events: EventPhase,
    subscriber: SubscribePhase,
    tells: seq<Seen>,
    unsubscribes: seq<nat>,
    past: Past)

  datatype Step =
    | Note(event: Seen)
    | TryClaim
    | CompleteSection
    | EventUnsubscribes
    | EventTells
    | ReadState(up: bool)
    | Seed
    | SetId(id: nat)
    | AfterId
    | SubscriberClaims
    | SubscriberTells

  predicate Enabled(s: State, step: Step) {
    match step
    case Note(event) => s.events.Idle? && !event.BeforeUp?
    case TryClaim => s.events.Noted?
    case CompleteSection => s.events.ToComplete?
    case EventUnsubscribes => s.events.ToUnsubscribe?
    case EventTells => s.events.Claimed?
    case ReadState(_) => s.subscriber.Registering? && s.role.ForUp?
    case Seed => s.subscriber.Seeding?
    case SetId(_) => s.subscriber.SettingId? || (s.subscriber.Registering? && s.role.ForRemoved?)
    case AfterId => s.subscriber.IdSet?
    case SubscriberClaims => s.subscriber.ToClaim?
    case SubscriberTells => s.subscriber.Telling?
  }

  function Unsubscribed(s: State, id: Option<nat>): State {
    if id.Some? then s.(unsubscribes := s.unsubscribes + [id.value]) else s
  }

  predicate WaitingToClaim(p: SubscribePhase) { p.IdSet? || p.ToClaim? }

  function OnNote(s: State, event: Seen): State {
    s.(shared := s.shared.(seen := event), events := Noted(event))
  }

  function OnTryClaim(s: State): State
    requires s.events.Noted?
  {
    if CanClaim(s.role, s.shared) then
      s.(shared := s.shared.(completed := true), events := Claimed(s.events.event, s.shared.subscriptionId))
    else if s.role.ForUp? && s.events.event.Removed? then s.(events := ToComplete)
    else s.(events := Idle)
  }

  function OnComplete(s: State): State {
    var id := if s.shared.completed then None else s.shared.subscriptionId;
    s.(shared := s.shared.(completed := true), events := ToUnsubscribe(id))
  }

  /** The event goes out if it is of the subscribed kind. */
  function OnEventTells(s: State): State
    requires s.events.Claimed?
  {
    var told := if s.role.ForUp? then s.events.event.Up? else s.events.event.Removed?;
    Unsubscribed(s.(events := Idle, tells := if told then s.tells + [s.events.event] else s.tells), s.events.id)
  }

  function OnSetId(s: State, id: nat): State {
    var up := s.subscriber.SettingId? && s.subscriber.up;
    s.(shared := s.shared.(subscriptionId := Some(id), replaying := false),
       subscriber := IdSet(up, s.shared.completed))
  }

  function OnAfterId(s: State): State
    requires s.subscriber.IdSet?
  {
    var t := s.(subscriber := ToClaim(s.subscriber.up));
    if s.subscriber.completed then Unsubscribed(t, s.shared.subscriptionId) else t
  }

  function OnSubscriberClaims(s: State): State
    requires s.subscriber.ToClaim?
  {
    if (s.role.ForUp? ==> s.subscriber.up) && CanClaim(s.role, s.shared) then
      s.(shared := s.shared.(completed := true), subscriber := Telling(s.shared.seen, s.shared.subscriptionId))
    else s.(subscriber := Done)
  }

  /** What the history gains by the step. */
  function Recorded(s: State, step: Step): Past
    requires Enabled(s, step)
  {
    var open, before := !s.shared.completed, !s.shared.completed && WaitingToClaim(s.subscriber);
    match step
    case Note(event) =>
      s.past.(removedAfter := s.past.removedAfter || (!s.shared.replaying && event.Removed?),
              overtaken := s.past.overtaken || (event.Up? && before),
              upAfter := s.past.upAfter || (!s.shared.replaying && event.Up? && open),
              removedFirst := s.past.removedFirst || (event.Removed? && before))
    case SetId(_) =>
      var read := s.subscriber.SettingId? && s.subscriber.up;
      s.past.(removedAtEnd := s.shared.seen.Removed?,
              upAtEnd := open && s.shared.seen.Up? && (read || s.events.Noted?))
    case _ => s.past
  }

  function Next(s: State, step: Step): State
    requires Enabled(s, step)
  {
    Acted(s, step).(past := Recorded(s, step))
  }

  function Acted(s: State, step: Step): State
    requires Enabled(s, step)
  {
    match step
    case Note(event) => OnNote(s, event)
    case TryClaim => OnTryClaim(s)
    case CompleteSection => OnComplete(s)
    case EventUnsubscribes => Unsubscribed(s.(events := Idle), s.events.id)
    case EventTells => OnEventTells(s)
    case ReadState(up) => s.(subscriber := Seeding(up))
    case Seed => s.(shared := Seeded(s.shared, s.subscriber.up), subscriber := SettingId(s.subscriber.up))
    case SetId(id) => OnSetId(s, id)
    case AfterId => OnAfterId(s)
    case SubscriberClaims => OnSubscriberClaims(s)
    case SubscriberTells =>
      Unsubscribed(s.(subscriber := Done, tells := s.tells + [s.subscriber.told]), s.subscriber.id)
  }

  function Initial(role: Role): State {
    State(role, FRESH, Idle, Registering, [], [], Past(false, false, false, false, false, false))
  }

  ghost predicate IsRun(role: Role, states: seq<State>, steps: seq<Step>) {
    && |states| == |steps| + 1
    && states[0] == Initial(role)
    && forall i {:trigger steps[i]} :: 0 <= i < |steps| ==> Enabled(states[i], steps[i]) && states[i + 1] == Next(states[i], steps[i])
  }

  // ---------- the invariant ----------

  /** Unsubscribe calls that a thread has taken upon itself. */
  function Owed(s: State): nat {
    (match s.events
     case Claimed(_, id) => if id.Some? then 1 else 0
     case ToUnsubscribe(id) => if id.Some? then 1 else 0
     case _ => 0)
    + (match s.subscriber
       case IdSet(_, completed) => if completed then 1 else 0
       case Telling(_, id) => if id.Some? then 1 else 0
       case _ => 0)
  }

  function TellsOwed(s: State): nat {
    (if s.events.Claimed? then 1 else 0) + (if s.subscriber.Telling? then 1 else 0)
  }

  predicate BeforeId(p: SubscribePhase) { p.Registering? || p.Seeding? || p.SettingId? }

  ghost predicate Wanted(role: Role, seen: Seen) {
    if role.ForUp? then seen.Up? else seen.Removed?
  }

  /** One unsubscribe for a completed subscription that has its id. */
  ghost predicate UnsubscribesCounted(s: State) {
    && (s.shared.replaying <==> BeforeId(s.subscriber))
    && (s.shared.replaying <==> s.shared.subscriptionId.None?)
    && (s.shared.replaying ==> !s.events.Claimed?)
    && (s.role.ForUp? || (!s.events.ToComplete? && !s.events.ToUnsubscribe?))
    && |s.unsubscribes| + Owed(s) == (if s.shared.completed && !s.shared.replaying then 1 else 0)
  }

  /** And it is that id. */
  ghost predicate OwnId(s: State) {
    && (s.events.Claimed? ==> s.events.id == s.shared.subscriptionId)
    && (s.subscriber.Telling? ==> s.subscriber.id == s.shared.subscriptionId)
    && (s.events.ToUnsubscribe? && s.events.id.Some? ==> s.events.id == s.shared.subscriptionId)
    && (forall i :: 0 <= i < |s.unsubscribes| ==> Some(s.unsubscribes[i]) == s.shared.subscriptionId)
  }

  /** At most one tell, and one for each completed subscription to Removed. */
  ghost predicate TellsCounted(s: State) {
    && |s.tells| + TellsOwed(s) <= (if s.shared.completed then 1 else 0)
    && (s.role.ForRemoved? && s.shared.completed ==> |s.tells| + TellsOwed(s) == 1)
  }

  /** What is told is of the subscribed kind, and the event in hand is the last one seen. */
  ghost predicate TellsWanted(s: State) {
    && (forall i :: 0 <= i < |s.tells| ==> Wanted(s.role, s.tells[i]))
    && (s.events.Claimed? ==> Wanted(s.role, s.events.event))
    && (s.subscriber.Telling? ==> Wanted(s.role, s.subscriber.told))
    && (s.events.Noted? ==> s.shared.seen == s.events.event && !s.events.event.BeforeUp?)
  }

  ghost predicate Invariant(s: State) {
    UnsubscribesCounted(s) && OwnId(s) && TellsCounted(s) && TellsWanted(s)
  }

  /** On the way to Removed: whoever has to be told still will be, and nobody else. */
  ghost predicate RemovalPending(s: State) {
    s.role.ForRemoved? ==>
      var inHand := s.events.Noted? && s.events.event.Removed?;
      && (s.shared.replaying ==> !s.past.removedAtEnd && !s.past.removedAfter && !s.past.overtaken && !s.shared.completed)
      && (s.past.removedAfter ==> s.shared.completed || inHand)
      && (s.past.removedAtEnd && !s.past.overtaken ==>
            s.shared.completed || inHand || (WaitingToClaim(s.subscriber) && s.shared.seen.Removed?))
      && ((s.shared.completed || (inHand && !s.shared.replaying) || (WaitingToClaim(s.subscriber) && s.shared.seen.Removed?)) ==>
            s.past.removedAfter || (s.past.removedAtEnd && !s.past.overtaken))
  }

  /** The event stream or the subscribing thread is still to claim an Up. */
  ghost predicate UpInHand(s: State) {
    && !s.shared.replaying && !s.shared.completed && s.shared.seen.Up?
    && (s.events.Noted? || (WaitingToClaim(s.subscriber) && s.subscriber.up))
  }

  ghost predicate UpDue(past: Past) {
    past.upAfter || (past.upAtEnd && !past.removedFirst)
  }

  /** A removal on its way to complete the subscription. */
  ghost predicate Completing(s: State) {
    s.events.ToComplete? || (s.events.Noted? && s.events.event.Removed?)
  }

  /** On the way to Up: it is told, or somebody still will tell it, exactly when it is due. */
  ghost predicate UpPending(s: State) {
    s.role.ForUp? ==>
      && (s.shared.replaying ==> !s.past.upAtEnd && !s.past.upAfter && !s.past.removedFirst)
      && (s.events.ToComplete? ==> s.shared.seen.Removed?)
      && (s.past.upAfter && !s.shared.completed ==> s.events.Noted? && s.events.event.Up?)
      && (s.past.removedFirst && !s.shared.completed ==> Completing(s))
      && (UpDue(s.past) <==> UpInHand(s) || |s.tells| + TellsOwed(s) == 1)
  }

  lemma StepKeepsUnsubscribes(s: State, step: Step)
    requires UnsubscribesCounted(s) && Enabled(s, step)
    ensures UnsubscribesCounted(Next(s, step))
  {
  }

  lemma StepKeepsId(s: State, step: Step)
    requires Invariant(s) && Enabled(s, step)
    ensures OwnId(Next(s, step))
  {
  }

  lemma StepKeepsTells(s: State, step: Step)
    requires UnsubscribesCounted(s) && TellsCounted(s) && TellsWanted(s) && Enabled(s, step)
    ensures TellsCounted(Next(s, step))
  {
  }

  lemma StepKeepsWanted(s: State, step: Step)
    requires TellsWanted(s) && Enabled(s, step)
    ensures TellsWanted(Next(s, step))
  {
  }

  lemma StepKeepsRemoval(s: State, step: Step)
    requires Invariant(s) && RemovalPending(s) && Enabled(s, step)
    ensures RemovalPending(Next(s, step))
  {
  }

  lemma StepKeepsUp(s: State, step: Step)
    requires Invariant(s) && UpPending(s) && Enabled(s, step)
    ensures UpPending(Next(s, step))
  {
  }

  lemma StepKeeps(s: State, step: Step, t: State)
    requires Invariant(s) && RemovalPending(s) && UpPending(s) && Enabled(s, step) && t == Next(s, step)
    ensures Invariant(t) && RemovalPending(t) && UpPending(t) && t.role == s.role
  {
    assert t.role == s.role;
    StepKeepsUnsubscribes(s, step);
    StepKeepsId(s, step);
    StepKeepsTells(s, step);
    StepKeepsWanted(s, step);
    StepKeepsRemoval(s, step);
    StepKeepsUp(s, step);
  }

  lemma {:induction false} RunInvariant(role: Role, states: seq<State>, steps: seq<Step>, i: nat)
    requires IsRun(role, states, steps) && i < |states|
    ensures Invariant(states[i]) && RemovalPending(states[i]) && UpPending(states[i]) && states[i].role == role
  {
    if i > 0 {
      RunInvariant(role, states, steps, i - 1);
      StepKeeps(states[i - 1], steps[i - 1], states[i]);
    }
  }

  /** Under every interleaving the actor is told at most once, of the right thing, and unsubscribed at most once. */
  lemma AtMostOnce(role: Role, states: seq<State>, steps: seq<Step>, i: nat)
    requires IsRun(role, states, steps) && i < |states|
    ensures |states[i].tells| <= 1 && |states[i].unsubscribes| <= 1
    ensures forall k :: 0 <= k < |states[i].tells| ==> Wanted(role, states[i].tells[k])
    ensures forall k :: 0 <= k < |states[i].unsubscribes| ==> Some(states[i].unsubscribes[k]) == states[i].shared.subscriptionId
  {
    RunInvariant(role, states, steps, i);
  }

  ghost predicate AtRest(s: State) { s.events.Idle? && s.subscriber.Done? }

  /** When both threads are done, a subscription was unsubscribed once if it completed and not at all otherwise. */
  lemma UnsubscribedOnce(role: Role, states: seq<State>, steps: seq<Step>, i: nat)
    requires IsRun(role, states, steps) && i < |states| && AtRest(states[i])
    ensures |states[i].unsubscribes| == (if states[i].shared.completed then 1 else 0)
    ensures |states[i].tells| == 1 ==> states[i].shared.completed
  {
    RunInvariant(role, states, steps, i);
  }

  /**
   Removed is told, once, exactly when it was seen after the replay, or was seen last at
   its end and no Up event overtook the claim.
   */
  lemma RemovedDelivered(states: seq<State>, steps: seq<Step>, i: nat)
    requires IsRun(ForRemoved, states, steps) && i < |states| && AtRest(states[i])
    ensures var s := states[i];
            |s.tells| == if s.past.removedAfter || (s.past.removedAtEnd && !s.past.overtaken) then 1 else 0
  {
    RunInvariant(ForRemoved, states, steps, i);
  }

  /**
   Up is told, once, exactly when an Up event came in after the replay on an open subscription,
   or the subscription was open at its end with Up seen last, by the state read or by an
   event still in hand, and no removal came in before the claim.
   */
  lemma UpDelivered(states: seq<State>, steps: seq<Step>, i: nat)
    requires IsRun(ForUp, states, steps) && i < |states| && AtRest(states[i])
    ensures |states[i].tells| == if UpDue(states[i].past) then 1 else 0
  {
    RunInvariant(ForUp, states, steps, i);
  }

  /** An Up event between the end of the replay and the claim does lose the removal. */
  lemma OvertakenIsLost(r: Removal) returns (states: seq<State>, steps: seq<Step>)
    ensures IsRun(ForRemoved, states, steps) && AtRest(states[|steps|])
    ensures states[|steps|].past.removedAtEnd && states[|steps|].tells == []
  {
    var s0 := Initial(ForRemoved);
    var s1 := s0.(shared := FRESH.(seen := Removed(r)), events := Noted(Removed(r)));
    var s2 := s1.(events := Idle);
    var s3 := s2.(shared := Shared(Some(5), false, false, Removed(r)), subscriber := IdSet(false, false),
                  past := s2.past.(removedAtEnd := true));
    var s4 := s3.(subscriber := ToClaim(false));
    var s5 := s4.(shared := s4.shared.(seen := Up), events := Noted(Up),
                  past := s4.past.(overtaken := true, upAfter := true));
    var s6 := s5.(events := Idle);
    var s7 := s6.(subscriber := Done);
    steps := [Note(Removed(r)), TryClaim, SetId(5), AfterId, Note(Up), TryClaim, SubscriberClaims];
    states := [s0, s1, s2, s3, s4, s5, s6, s7];
  }

  /** An Up event handed over during the replay is lost when the state was read before it. */
  lemma ReplayedUpIsLost() returns (states: seq<State>, steps: seq<Step>)
    ensures IsRun(ForUp, states, steps) && AtRest(states[|steps|])
    ensures Note(Up) in steps && !states[|steps|].shared.completed && states[|steps|].tells == []
  {
    var s0 := Initial(ForUp);
    var s1 := Next(s0, ReadState(false));
    var s2 := Next(s1, Note(Up));
    var s3 := Next(s2, TryClaim);
    var s4 := Next(s3, Seed);
    var s5 := Next(s4, SetId(5));
    var s6 := Next(s5, AfterId);
    var s7 := Next(s6, SubscriberClaims);
    steps := [ReadState(false), Note(Up), TryClaim, Seed, SetId(5), AfterId, SubscriberClaims];
    assert steps[1] == Note(Up);
    states := [s0, s1, s2, s3, s4, s5, s6, s7];
  }
}
