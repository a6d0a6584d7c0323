/**
 The wait behaviours of the effector as the object they work on: the shared sequence
 number, the callback in its slot and the stash are updated in place, one received
 message at a time. Each method does what the step of the protocol says.
 */
module EffectorBehaviors {
  import opened Options
  import opened Retention
  import opened EventStore
  import opened Effector
  import opened EffectorProgress

  class EffectorBehavior {
    const config: Config
    var mode: Mode
    var sequenceNr: U64
    var calls: seq<Arg>
    var commands: seq<Command>
    var mailbox: seq<Mail>
    var stash: seq<Message>
    var handled: seq<Message>
    /** The store beside it, which no behaviour touches. */
    var entry: Entry
    var logged: seq<Event>
    /** What the run records. */
    ghost var arrivals: seq<Message>
    ghost var issued: seq<Op>

    function Look(): Core
      reads this
    {
      Core(mode, sequenceNr, entry, calls, commands, logged)
    }

    ghost function LookAll(): Actor
      reads this
    {
      Actor(Look(), mailbox, stash, handled, arrivals, issued)
    }

    constructor (config: Config, entry: Entry)
      ensures this.config == config && LookAll() == Initial(entry)
    {
      this.config, this.entry := config, entry;
      mode, sequenceNr, calls, commands, logged := Recovering, 0, [], [Recovery], [];
      mailbox, stash, handled := [], [], [];
      arrivals, issued := [], [];
    }

    method UserMessageArrives(message: Message)
      modifies this`mailbox, this`arrivals
      ensures LookAll() == Next(config, old(LookAll()), Arrive(message))
    {
      mailbox, arrivals := mailbox + [User(message)], arrivals + [message];
    }

    /** The store takes the next command, and its acknowledgements come in. */
    method StoreAnswers()
      requires commands != []
      modifies this`commands, this`mailbox, this`entry, this`logged
      ensures LookAll() == Next(config, old(LookAll()), Store)
    {
      var (after, signals) := Serve(config, Look());
      commands, mailbox := commands[1..], mailbox + SignalMail(signals);
      entry, logged := after.entry, after.logged;
    }

    method Send(command: Command, next: Mode)
      modifies this`mode, this`commands
      ensures Look() == old(Look()).Send(command, next)
    {
      commands, mode := commands + [command], next;
    }

    method StartOps(ops: seq<Op>)
      modifies this`mode, this`calls, this`commands
      ensures Look() == Start(config, old(Look()), ops)
      decreases |ops|
    {
      if ops == [] {
        mode := Ready;
        return;
      }
      match ops[0] {
        case Persist(batch) => Send(StoreEvents(batch.Events()), WaitEvents(batch.OnPersisted(), ops[1..]));
        case PersistThenSnapshot(batch, offer) =>
          Send(StoreEvents(batch.Events()), WaitEventsThenSnapshot(batch.OnPersisted(), offer, ops[1..]));
        case PersistSnapshot(offer) =>
          if ShouldSave(config, None, offer, sequenceNr) {
            Send(StoreSnapshot(offer.state), WaitSnapshot(OnSnapshot, ops[1..]));
          } else {
            calls := calls + [SnapshotArg(offer.state)];
            StartOps(ops[1..]);
          }
      }
    }

    method RunCallback(arg: Option<Arg>, rest: seq<Op>)
      modifies this`mode, this`calls, this`commands
      ensures Look() == Call(config, old(Look()), arg, rest).core
    {
      match arg {
        case None =>
        case Some(a) =>
          calls := calls + [a];
          StartOps(rest);
      }
    }

    method TakeNotice(notice: Notice)
      modifies this`mode
      ensures Look() == OnNotice(config, old(Look()), notice).core
    {
      match notice {
        case JournalPersistFailed => mode := Failed(StoreFailed(config.persistFailureBackoff));
        case OtherFailure => mode := Failed(StoreFailed(false));
        case _ =>
      }
    }

    method SnapshotPersisted(reply: SnapshotCallback, state: State, n: U64, rest: seq<Op>) returns (unstash: bool)
      modifies this`mode, this`sequenceNr, this`calls, this`commands
      ensures Reaction(Look(), unstash) == OnPersistedSnapshot(config, old(Look()), reply, state, n, rest)
    {
      sequenceNr := n;
      match config.retention.DeleteTo(n) {
        case None =>
          RunCallback(reply.ArgFor(state), rest);
          return true;
        case Some(to) =>
          if config.retention.deleteEvents {
            Send(RemoveEvents(to), WaitDeletedEvents(reply, state, to, rest));
          } else {
            Send(RemoveSnapshots(to), WaitDeletedSnapshots(reply, state, to, rest));
          }
          return false;
      }
    }

    method EventsPersisted(signal: Signal) returns (unstash: bool)
      requires (mode.WaitEvents? || mode.WaitEventsThenSnapshot?) && signal.PersistedEvents?
      modifies this`mode, this`sequenceNr, this`calls, this`commands
      ensures Reaction(Look(), unstash) == OnSignal(config, old(Look()), signal, [])
    {
      sequenceNr := signal.sequenceNr;
      var es, callback, rest := signal.events, mode.callback, mode.rest;
      if mode.WaitEventsThenSnapshot? && ShouldSave(config, Last(es), mode.offer, sequenceNr) {
        Send(StoreSnapshot(mode.offer.state), WaitSnapshot(AfterEvents(callback, es), rest));
      } else {
        RunCallback(callback.ArgFor(es), rest);
      }
      return true;
    }

    method DeletionAcked(signal: Signal) returns (unstash: bool)
      requires (mode.WaitDeletedEvents? && signal.EventSourced? && signal.notice.EventsDeleted?)
               || (mode.WaitDeletedSnapshots? && signal.DeletedSnapshots?)
      modifies this`mode, this`calls, this`commands
      ensures Reaction(Look(), unstash) == OnSignal(config, old(Look()), signal, [])
      ensures (if signal.DeletedSnapshots? then signal.to else signal.notice.to) != old(mode.to) ==>
                mode == Failed(UnexpectedAck) && !unstash && calls == old(calls) && commands == old(commands)
    {
      var reply, state, to, rest := mode.reply, mode.state, mode.to, mode.rest;
      var acked := if signal.DeletedSnapshots? then signal.to else signal.notice.to;
      if acked != to {
        mode := Failed(UnexpectedAck);
        return false;
      }
      if mode.WaitDeletedEvents? {
        Send(RemoveSnapshots(to), WaitDeletedSnapshots(reply, state, to, rest));
        return false;
      }
      RunCallback(reply.ArgFor(state), rest);
      return true;
    }

    method ReceiveSignal(signal: Signal, script: seq<Op>) returns (unstash: bool)
      modifies this`mode, this`sequenceNr, this`calls, this`commands
      ensures Reaction(Look(), unstash) == OnSignal(config, old(Look()), signal, script)
    {
      match (mode, signal) {
        case (Ready, _) => return false;
        case (Failed(_), _) => return false;
        case (Recovering, Recovered(_, n)) =>
          sequenceNr := n;
          StartOps(script);
          return true;
        case (WaitEvents(_, _), PersistedEvents(_, _)) => unstash := EventsPersisted(signal);
        case (WaitEventsThenSnapshot(_, _, _), PersistedEvents(_, _)) => unstash := EventsPersisted(signal);
        case (WaitSnapshot(reply, rest), PersistedSnapshot(state, n)) => unstash := SnapshotPersisted(reply, state, n, rest);
        case (WaitDeletedEvents(_, _, _, _), EventSourced(EventsDeleted(_))) => unstash := DeletionAcked(signal);
        case (WaitDeletedSnapshots(_, _, _, _), DeletedSnapshots(_)) => unstash := DeletionAcked(signal);
        case (_, EventSourced(notice)) =>
          TakeNotice(notice);
          return false;
        case (_, _) => return false;
      }
    }

    method ReceiveUser(message: Message, script: seq<Op>)
      modifies this
      ensures LookAll() == OnUser(config, old(LookAll()), message, script)
    {
      if mode.Ready? {
        handled, issued := handled + [message], issued + script;
        StartOps(script);
      } else if |stash| >= config.stashCapacity {
        mode := Failed(StashFull);
      } else {
        stash := stash + [message];
      }
    }

    /** Takes the next message from the mailbox; this is a `Deliver` step of the protocol. */
    method Receive(script: seq<Op>)
      requires mailbox != [] && !mode.Failed?
      modifies this
      ensures LookAll() == Next(config, old(LookAll()), Deliver(script))
    {
      var mail := mailbox[0];
      mailbox := mailbox[1..];
      match mail {
        case User(message) => ReceiveUser(message, script);
        case FromStore(signal) =>
          if mode.Recovering? && signal.Recovered? {
            issued := issued + script;
          }
          var unstash := ReceiveSignal(signal, script);
          if unstash {
            mailbox, stash := AsMail(stash) + mailbox, [];
          }
      }
    }

    /**
     A user message handled to its end: the script of operations that it starts runs through
     all its waits, and has the effect of the one-shot form.
     */
    method HandleToEnd(message: Message, script: seq<Op>, ghost first: Entry)
      requires Invariant(config, first, LookAll()) && mode.Ready? && mailbox == []
      modifies this
      ensures Invariant(config, first, LookAll()) && mode.Ready? && mailbox == []
      ensures Look().ToWorld() == RunScript(config, old(Look().ToWorld()), script)
      ensures handled == old(handled) + [message]
    {
      ghost var start := LookAll();
      BeginsUnderway(config, first, start, message, script);
      UserMessageArrives(message);
      Receive(script);
      while !mode.Ready?
        invariant Underway(config, first, LookAll(), start, message, script)
        decreases Left(LookAll())
      {
        StaysUnderway(config, first, LookAll(), start, message, script);
        if commands != [] {
          StoreAnswers();
        } else {
          Receive([]);
        }
      }
      EndsUnderway(config, first, LookAll(), start, message, script);
    }
  }

  // ---------- one message on its way to its end ----------

  ghost predicate OnlySignals(mailbox: seq<Mail>) {
    forall m <- mailbox :: m.FromStore?
  }

  /** The message was handled, its script started, and nothing else came in. */
  ghost predicate Underway(config: Config, first: Entry, a: Actor, start: Actor, message: Message, script: seq<Op>) {
    && Invariant(config, first, a) && !a.core.mode.Failed? && !a.core.mode.Recovering?
    && OnlySignals(a.mailbox) && a.stash == []
    && a.handled == start.handled + [message] && a.issued == start.issued + script
  }

  lemma BeginsUnderway(config: Config, first: Entry, start: Actor, message: Message, script: seq<Op>)
    requires Invariant(config, first, start) && start.core.mode.Ready? && start.mailbox == []
    ensures var a := Next(config, start, Arrive(message));
            a.mailbox != [] && Underway(config, first, Next(config, a, Deliver(script)), start, message, script)
  {
    var a := Next(config, start, Arrive(message));
    ArriveKeeps(config, first, start, message);
    assert a.mailbox == [User(message)] && a.mailbox[1..] == [];
    UserKeeps(config, first, a, script);
    StartedMode(config, start.core, script);
  }

  lemma SignalMode(config: Config, c: Core, signals: seq<Signal>, w: World)
    requires signals != [] && Settles(config, c, signals, w) && Waits(c.mode)
    ensures !OnSignal(config, c, signals[0], []).core.mode.Recovering?
  {
    forall d: Core, ops: seq<Op> ensures !Start(config, d, ops).mode.Recovering? {
      StartedMode(config, d, ops);
    }
  }

  lemma {:induction false} IdleMailbox(mailbox: seq<Mail>)
    requires OnlySignals(mailbox)
    ensures |Signals(mailbox)| == |mailbox| && Users(mailbox) == []
  {
    if mailbox != [] {
      assert mailbox[0] in mailbox;
      IdleMailbox(mailbox[1..]);
    }
  }

  /** Somebody always has something to do, and doing it uses up work. */
  lemma StaysUnderway(config: Config, first: Entry, a: Actor, start: Actor, message: Message, script: seq<Op>)
    requires Underway(config, first, a, start, message, script) && !a.core.mode.Ready?
    ensures a.core.commands == [] ==> a.mailbox != []
    ensures var move := if a.core.commands != [] then Store else Deliver([]);
            var b := Next(config, a, move);
            Underway(config, first, b, start, message, script) && Left(b) < Left(a)
  {
    IdleMailbox(a.mailbox);
    if a.core.commands != [] {
      StoreKeeps(config, first, a);
      StepsUseWork(config, first, a, Store);
      StoreMail(config, a);
    } else {
      TakesSignal(config, first, a);
      StepsUseWork(config, first, a, Deliver([]));
    }
  }

  lemma TakesSignal(config: Config, first: Entry, a: Actor)
    requires Invariant(config, first, a) && Waits(a.core.mode) && a.core.commands == [] && OnlySignals(a.mailbox) && a.stash == []
    requires |Signals(a.mailbox)| == |a.mailbox|
    ensures a.mailbox != []
    ensures var b := Next(config, a, Deliver([]));
            && Invariant(config, first, b) && !b.core.mode.Failed? && !b.core.mode.Recovering?
            && OnlySignals(b.mailbox) && b.stash == [] && b.handled == a.handled && b.issued == a.issued
  {
    var signals, w := Signals(a.mailbox), Expected(config, first, a.issued);
    assert signals != [];
    assert a.mailbox[0] in a.mailbox;
    var b := Next(config, a, Deliver([]));
    SignalKeeps(config, first, a, []);
    SignalTaken(config, a, []);
    SignalMode(config, a.core, signals, w);
    SignalSettles(config, a.core, signals, [], w);
    SettledNotFailed(config, b.core, signals[1..], w);
    assert AsMail(a.stash) + a.mailbox[1..] == a.mailbox[1..];
  }

  lemma EndsUnderway(config: Config, first: Entry, a: Actor, start: Actor, message: Message, script: seq<Op>)
    requires Underway(config, first, a, start, message, script) && a.core.mode.Ready?
    requires Invariant(config, first, start) && start.core.mode.Ready?
    ensures a.mailbox == [] && a.core.ToWorld() == RunScript(config, start.core.ToWorld(), script)
  {
    RunScriptAppend(config, World(first, first.sequenceNr, []), start.issued, script);
    IdleMailbox(a.mailbox);
  }
}
