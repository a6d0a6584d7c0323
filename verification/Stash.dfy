/**
 The stash of an actor cell and the deque it is replayed to. A replay prepends message
 by message, so on a bounded deque it can stop halfway; the restored stash then
 repeats messages that already went back to the mailbox.
 */
module Stashing {
  import opened Options

  type Message(!new, ==)

  datatype Outcome = Done(count: nat) | RequiresDeque | Overflow | WrapFailed | Closed | Full

  /** `capacity` is absent for an unbounded deque and for the Grow strategy. */
  datatype View = View(stashed: seq<Message>, queue: seq<Message>, capacity: Option<nat>, deque: bool, closed: bool)
  {
    /** Whether `n` more messages find room. */
    predicate Fits(n: nat) { capacity.None? || |queue| + n <= capacity.value }

    function Free(): nat
      requires capacity.Some?
    {
      if |queue| >= capacity.value then 0 else capacity.value - |queue|
    }
  }

  type Wrap = Message -> Option<Message>

  function Keep(message: Message): Option<Message> { Some(message) }

  ghost predicate Wraps(wrap: Wrap, messages: seq<Message>) {
    forall i :: 0 <= i < |messages| ==> wrap(messages[i]).Some?
  }

  ghost function WrapAll(wrap: Wrap, messages: seq<Message>): (r: seq<Message>)
    requires Wraps(wrap, messages)
    ensures |r| == |messages|
  {
    seq(|messages|, i requires 0 <= i < |messages| => wrap(messages[i]).value)
  }

  /** What a prepend leaves in the queue: all of `pending`, or as many of its last messages as fit. */
  ghost function Prepended(v: View, pending: seq<Message>): seq<Message> {
    if v.Fits(|pending|) then pending + v.queue else pending[|pending| - v.Free()..] + v.queue
  }

  /** The replay of up to `limit` stashed messages. */
  ghost function Unstash(v: View, limit: nat, wrap: Wrap): (View, Outcome) {
    var k := if limit <= |v.stashed| then limit else |v.stashed|;
    if k == 0 then (v, Done(0))
    else if !v.deque then (v, RequiresDeque)
    else if !Wraps(wrap, v.stashed[..k]) then (v, WrapFailed)
    else if v.closed then (v, Closed)
    else
      var pending := WrapAll(wrap, v.stashed[..k]);
      if v.Fits(k) then (v.(stashed := v.stashed[k..], queue := Prepended(v, pending)), Done(k))
      else (v.(queue := Prepended(v, pending)), Full)
  }

  class Stash {
    var stashed: seq<Message>
    var queue: seq<Message>
    var closed: bool
    const capacity: Option<nat>
    const deque: bool

    function Look(): View
      reads this
    {
      View(stashed, queue, capacity, deque, closed)
    }

    constructor (capacity: Option<nat>, deque: bool)
      ensures Look() == View([], [], capacity, deque, false)
    {
      stashed, queue, closed := [], [], false;
      this.capacity, this.deque := capacity, deque;
    }

    method EnqueueFirst(message: Message) returns (ok: bool)
      modifies this`queue
      ensures ok <==> old(Look()).Fits(1)
      ensures queue == if ok then [message] + old(queue) else old(queue)
    {
      if capacity.Some? && |queue| >= capacity.value {
        return false;
      }
      queue := [message] + queue;
      return true;
    }

    /** Back to front, so that the first message ends up first. */
    method Prepend(pending: seq<Message>) returns (outcome: Outcome)
      modifies this`queue
      ensures outcome == if pending == [] then Done(0) else if closed then Closed
                         else if old(Look()).Fits(|pending|) then Done(|pending|) else Full
      ensures queue == if closed then old(queue) else Prepended(old(Look()), pending)
    {
      if pending == [] {
        PrependNothing(Look());
        return Done(0);
      }
      if closed {
        return Closed;
      }
      ghost var was := Look();
      var i := |pending|;
      while i > 0
        invariant 0 <= i <= |pending|
        invariant queue == pending[i..] + was.queue
        invariant i < |pending| ==> was.Fits(|pending| - i)
      {
        var ok := EnqueueFirst(pending[i - 1]);
        if !ok {
          assert |pending| - i == was.Free();
          return Full;
        }
        PrependOne(pending, i, was.queue);
        i := i - 1;
      }
      return Done(|pending|);
    }

    method StashWithLimit(message: Message, limit: nat) returns (outcome: Outcome)
      modifies this`stashed
      ensures outcome == if !deque then RequiresDeque else if |old(stashed)| >= limit then Overflow else Done(1)
      ensures stashed == if outcome.Done? then old(stashed) + [message] else old(stashed)
    {
      if !deque {
        return RequiresDeque;
      }
      if |stashed| >= limit {
        return Overflow;
      }
      stashed := stashed + [message];
      return Done(1);
    }

    method UnstashMessage() returns (outcome: Outcome)
      modifies this`stashed, this`queue
      ensures (Look(), outcome) == Unstash(old(Look()), 1, Keep)
    {
      if stashed == [] {
        return Done(0);
      }
      ghost var was := stashed;
      var pending := [stashed[0]];
      stashed := stashed[1..];
      assert was[..1] == pending && pending + stashed == was;
      IdentityWraps(was[..1]);
      if !deque {
        stashed := pending + stashed;
        return RequiresDeque;
      }
      outcome := Prepend(pending);
      if !outcome.Done? {
        stashed := pending + stashed;
      }
    }

    method UnstashMessages() returns (outcome: Outcome)
      modifies this`stashed, this`queue
      ensures (Look(), outcome) == Unstash(old(Look()), |old(stashed)|, Keep)
    {
      var pending := stashed;
      stashed := [];
      if pending == [] {
        return Done(0);
      }
      assert pending[..|pending|] == pending && pending[|pending|..] == [];
      IdentityWraps(pending);
      if !deque {
        stashed := pending;
        return RequiresDeque;
      }
      outcome := Prepend(pending);
      if !outcome.Done? {
        stashed := pending;
      }
    }

    method UnstashMessagesWithLimit(limit: nat, wrap: Wrap) returns (outcome: Outcome)
      modifies this`stashed, this`queue
      ensures (Look(), outcome) == Unstash(old(Look()), limit, wrap)
    {
      if limit == 0 {
        return Done(0);
      }
      var originals := TakeFront(limit);
      if originals == [] {
        return Done(0);
      }
      if !deque {
        RestoreStashed(originals);
        return RequiresDeque;
      }
      var wrapped := WrapEach(wrap, originals);
      if wrapped.None? {
        RestoreStashed(originals);
        return WrapFailed;
      }
      outcome := Prepend(wrapped.value);
      if !outcome.Done? {
        RestoreStashed(originals);
      }
    }

    method TakeFront(limit: nat) returns (taken: seq<Message>)
      modifies this`stashed
      ensures |taken| == if limit <= |old(stashed)| then limit else |old(stashed)|
      ensures taken + stashed == old(stashed) && taken == old(stashed)[..|taken|] && stashed == old(stashed)[|taken|..]
    {
      var count := if limit <= |stashed| then limit else |stashed|;
      taken := [];
      for i := 0 to count
        invariant |taken| == i && taken + stashed == old(stashed)
      {
        taken, stashed := taken + [stashed[0]], stashed[1..];
      }
    }

    /** Back to front, so that the restored messages come before the rest in their old order. */
    method RestoreStashed(messages: seq<Message>)
      modifies this`stashed
      ensures stashed == messages + old(stashed)
    {
      var left := messages;
      while left != []
        invariant left + stashed == messages + old(stashed)
        decreases |left|
      {
        var last := left[|left| - 1];
        left := left[..|left| - 1];
        assert left + [last] + stashed == left + ([last] + stashed);
        stashed := [last] + stashed;
      }
    }

    method ClearStashed() returns (dropped: nat)
      modifies this`stashed
      ensures stashed == [] && dropped == |old(stashed)|
    {
      dropped, stashed := |stashed|, [];
    }
  }

  method WrapEach(wrap: Wrap, messages: seq<Message>) returns (r: Option<seq<Message>>)
    ensures r.Some? <==> Wraps(wrap, messages)
    ensures r.Some? ==> r.value == WrapAll(wrap, messages)
  {
    var wrapped := [];
    for i := 0 to |messages|
      invariant |wrapped| == i && forall j :: 0 <= j < i ==> wrap(messages[j]) == Some(wrapped[j])
    {
      match wrap(messages[i]) {
        case Some(m) => wrapped := wrapped + [m];
        case None => return None;
      }
    }
    return Some(wrapped);
  }

  lemma IdentityWraps(messages: seq<Message>)
    ensures Wraps(Keep, messages) && WrapAll(Keep, messages) == messages
  {
  }

  lemma PrependOne(pending: seq<Message>, i: nat, queue: seq<Message>)
    requires 0 < i <= |pending|
    ensures [pending[i - 1]] + (pending[i..] + queue) == pending[i - 1..] + queue
  {
  }

  lemma PrependNothing(v: View)
    ensures Prepended(v, []) == v.queue
  {
    var none: seq<Message> := [];
    assert none + v.queue == v.queue;
    assert v.Fits(0) || none[|none| - v.Free()..] == none;
  }

  // ---------- conservation ----------

  /** The replay gets under way and there is room for some of the messages, not for all. */
  ghost predicate StopsHalfway(v: View, limit: nat, wrap: Wrap) {
    var k := if limit <= |v.stashed| then limit else |v.stashed|;
    v.deque && !v.closed && Wraps(wrap, v.stashed[..k]) && !v.Fits(k) && v.Free() > 0
  }

  /** Success moves the first stashed messages, in order, in front of the mailbox. */
  lemma SuccessMovesPrefix(v: View, limit: nat, wrap: Wrap)
    requires Unstash(v, limit, wrap).1.Done?
    ensures var (w, outcome) := Unstash(v, limit, wrap);
            && outcome.count <= limit && outcome.count <= |v.stashed| && Wraps(wrap, v.stashed[..outcome.count])
            && w == v.(stashed := v.stashed[outcome.count..], queue := WrapAll(wrap, v.stashed[..outcome.count]) + v.queue)
  {
    var none: seq<Message> := [];
    assert none + v.queue == v.queue && v.stashed[..0] == none && v.stashed[0..] == v.stashed;
  }

  /** A failed replay leaves everything as it was exactly when it did not stop halfway. */
  lemma FailureRestores(v: View, limit: nat, wrap: Wrap)
    requires !Unstash(v, limit, wrap).1.Done?
    ensures Unstash(v, limit, wrap).0.stashed == v.stashed
    ensures Unstash(v, limit, wrap).0 == v <==> !StopsHalfway(v, limit, wrap)
  {
    var w := Unstash(v, limit, wrap).0;
    if Unstash(v, limit, wrap).1.Full? && v.Free() == 0 {
      assert w.queue == v.queue;
    }
  }

  /** The number of messages in stash and mailbox stays the same exactly when no replay stops halfway. */
  lemma CountConserved(v: View, limit: nat, wrap: Wrap)
    ensures var w := Unstash(v, limit, wrap).0;
            |w.stashed| + |w.queue| == |v.stashed| + |v.queue| <==> !StopsHalfway(v, limit, wrap)
  {
    if Unstash(v, limit, wrap).1.Done? {
      SuccessMovesPrefix(v, limit, wrap);
    } else {
      FailureRestores(v, limit, wrap);
    }
  }

  /** And then without wrapping every message is kept as often as it was there. */
  lemma MessagesConserved(v: View, limit: nat)
    ensures var w := Unstash(v, limit, Keep).0;
            multiset(w.stashed) + multiset(w.queue) == multiset(v.stashed) + multiset(v.queue)
            <==> !StopsHalfway(v, limit, Keep)
  {
    var (w, outcome) := Unstash(v, limit, Keep);
    CountConserved(v, limit, Keep);
    MultisetSize(w);
    MultisetSize(v);
    if outcome.Done? {
      SuccessMovesPrefix(v, limit, Keep);
      IdentityWraps(v.stashed[..outcome.count]);
      MoveKeepsMessages(v.stashed, outcome.count, v.queue);
    } else {
      FailureRestores(v, limit, Keep);
    }
  }

  lemma MultisetSize(v: View)
    ensures |multiset(v.stashed) + multiset(v.queue)| == |v.stashed| + |v.queue|
  {
  }

  lemma MoveKeepsMessages(stashed: seq<Message>, k: nat, queue: seq<Message>)
    requires k <= |stashed|
    ensures multiset(stashed[k..]) + multiset(stashed[..k] + queue) == multiset(stashed) + multiset(queue)
  {
    assert stashed == stashed[..k] + stashed[k..];
  }

  /** One free place and two stashed messages: the second is replayed and stays stashed too. */
  lemma HalfwayRepeats(a: Message, b: Message, c: Message)
    ensures var v := View([b, c], [a], Some(2), true, false);
            Unstash(v, 2, Keep) == (View([b, c], [c, a], Some(2), true, false), Full)
  {
    IdentityWraps([b, c][..2]);
    assert [b, c][..2] == [b, c] && [b, c][1..] == [c];
    assert [c] + [a] == [c, a];
  }

  // ---------- the limit ----------

  /** The operations on the stash, and whatever else happens to the mailbox between them. */
  datatype Op =
    | Put(message: Message, limit: nat)
    | Replay(count: nat, wrap: Wrap)
    | Clear
    | Elsewhere(queue: seq<Message>, closed: bool)

  ghost function Apply(v: View, op: Op): View {
    match op
    case Put(m, limit) => if v.deque && |v.stashed| < limit then v.(stashed := v.stashed + [m]) else v
    case Replay(count, wrap) => Unstash(v, count, wrap).0
    case Clear => v.(stashed := [])
    case Elsewhere(queue, closed) => v.(queue := queue, closed := closed)
  }

  ghost function RunAll(v: View, ops: seq<Op>): View {
    if ops == [] then v else Apply(RunAll(v, ops[..|ops| - 1]), ops[|ops| - 1])
  }

  /** With one limit for all, no sequence of operations brings the stash above it. */
  lemma {:induction false} WithinLimit(v: View, ops: seq<Op>, limit: nat)
    requires |v.stashed| <= limit && forall op <- ops :: op.Put? ==> op.limit == limit
    ensures |RunAll(v, ops).stashed| <= limit
  {
    if ops != [] {
      assert ops[|ops| - 1] in ops;
      WithinLimit(v, ops[..|ops| - 1], limit);
    }
  }
}
