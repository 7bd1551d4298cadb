/**
 What a stranger's message in the requester's queue can do to the paired clients: exactly when it can lead to the
 mismatch branch.
 */
module Strangers {
  import opened PairedConversation
  import opened Wrappers

  /** The requester is about to receive a reply that it reports as unexpected. */
  ghost predicate MismatchAt(t: State, i: nat) {
    Enabled(t, Receive(i)) && t.replies[i].side.Requester? && Mismatch(t.requester, t.replies[i].reply)
  }

  /** Some continuation, in which strangers behave, gets there. */
  ghost predicate MismatchAhead(s: State) {
    exists steps, t, i :: Leads(steps, s, t) && MismatchAt(t, i)
  }

  function WithStranger(s: State, m: Message): State {
    s.(toRequester := s.toRequester + [m])
  }

  /** The requester waits for messages of that context, or will as soon as the reply it waits for arrives. */
  ghost predicate WaitsFor(s: State, c: nat) {
    && !s.requester.stopped
    && if s.requester.sending then exists i :: Opens(s, i, c) else s.requester.context == c
  }

  ghost predicate Opens(s: State, i: nat, c: nat) {
    && s.requester.waiting && i < |s.replies| && s.replies[i].side.Requester?
    && s.replies[i].attempt == s.requester.attempt && s.replies[i].reply == Sent(c)
  }

  // ---- a wrong number that the requester waits for -----------------------------------------------

  lemma StepAhead(s: State, step: Step)
    requires Enabled(s, step) && MismatchAhead(Next(s, step))
    ensures MismatchAhead(s)
  {
    hide Enabled, Next, MismatchAt;
    var rest, t, i :| Leads(rest, Next(s, step), t) && MismatchAt(t, i);
    StepFirst(step, rest, s, t);
  }

  lemma AtOnce(s: State, i: nat)
    requires MismatchAt(s, i)
    ensures MismatchAhead(s)
  {
    hide MismatchAt;
    NoSteps(s);
  }

  /**
   From every state of the machine, reachable or not: a requester that waits for a context, and a message of that
   context with any number but the expected one, whatever else is under way.
   */
  lemma WrongNumberMisleads(s: State, j: nat, k: int)
    requires !s.requester.sending && !s.requester.stopped && j < |s.toRequester|
    requires s.toRequester[j] == Message(Some(s.requester.context), Some(k)) && k != s.requester.counter + 1
    ensures MismatchAhead(s)
  {
    if s.requester.waiting {
      IdleRequesterMisled(Next(s, Timeout(Requester)), j, k);
      StepAhead(s, Timeout(Requester));
    } else {
      IdleRequesterMisled(s, j, k);
    }
  }

  lemma IdleRequesterMisled(s: State, j: nat, k: int)
    requires !s.requester.sending && !s.requester.stopped && !s.requester.waiting && j < |s.toRequester|
    requires s.toRequester[j] == Message(Some(s.requester.context), Some(k)) && k != s.requester.counter + 1
    ensures MismatchAhead(s)
  {
    hide MismatchAhead;
    var asked := Next(s, Submit(Requester));
    var last := |asked.submitted| - 1;
    assert asked.submitted[last].op == DequeueFor(s.requester.context);
    assert Enabled(asked, Execute(last, Some(j)));
    var answered := Next(asked, Execute(last, Some(j)));
    AtOnce(answered, |answered.replies| - 1);
    StepAhead(asked, Execute(last, Some(j)));
    StepAhead(s, Submit(Requester));
  }

  /** The same for a requester that is still to learn the context. */
  lemma WaitedForMisleads(s: State, c: nat, k: int)
    requires WaitsFor(s, c) && k != s.requester.counter + 1
    ensures MismatchAhead(WithStranger(s, Message(Some(c), Some(k))))
  {
    hide MismatchAhead, Leads;
    var u := WithStranger(s, Message(Some(c), Some(k)));
    if s.requester.sending {
      var i :| Opens(s, i, c);
      WrongNumberMisleads(Next(u, Receive(i)), |s.toRequester|, k);
      StepAhead(u, Receive(i));
    } else {
      WrongNumberMisleads(u, |s.toRequester|, k);
    }
  }

  // ---- a context that the requester does not wait for ----------------------------------------------

  /** The history without a context. */
  function Forgotten(s: State, c: nat): State {
    s.(sent := s.sent - {c})
  }

  /** Contexts that have been issued are not issued again, so that nothing depends on having used one. */
  lemma ForgottenStep(s: State, c: nat, step: Step)
    requires Enabled(s, step) && c <= s.issued
    ensures Enabled(Forgotten(s, c), step) && Next(Forgotten(s, c), step) == Forgotten(Next(s, step), c)
    ensures c <= Next(s, step).issued
  {
    hide Executed, AfterAction, NextOperation, Findable, Removed;
    if step.Execute? {
      ForgottenExecute(s, c, step.i, step.found);
    }
  }

  lemma ForgottenExecute(s: State, c: nat, i: nat, found: Option<nat>)
    requires Enabled(s, Execute(i, found)) && c <= s.issued
    ensures Enabled(Forgotten(s, c), Execute(i, found))
    ensures Executed(Forgotten(s, c), i, found) == Forgotten(Executed(s, i, found), c)
    ensures c <= Executed(s, i, found).issued
  {
    hide Removed, Findable;
    if s.submitted[i].op.SendRequest? {
      var x := s.submitted[i].op.content;
      assert (s.sent - {c})[s.issued + 1 := x] == s.sent[s.issued + 1 := x] - {c};
    }
  }

  lemma {:induction false} ForgottenRun(steps: seq<Step>, s: State, t: State, c: nat)
    requires Leads(steps, s, t) && c <= s.issued
    ensures Leads(steps, Forgotten(s, c), Forgotten(t, c))
    decreases |steps|
  {
    hide Enabled, Next, Forgotten;
    if steps != [] {
      ForgottenStep(s, c, steps[0]);
      ForgottenRun(steps[1..], Next(s, steps[0]), t, c);
    }
  }

  lemma ForgottenMismatch(t: State, c: nat, i: nat)
    ensures MismatchAt(Forgotten(t, c), i) <==> MismatchAt(t, i)
  {
  }

  /** From a state in which messages, requests and replies agree there is no way to a mismatch. */
  lemma AgreementPreventsMismatch(s: State)
    requires Inv(s)
    ensures !MismatchAhead(s)
  {
    hide Inv;
    if steps, t, i :| Leads(steps, s, t) && MismatchAt(t, i) {
      RunKeeps(steps, s, t);
      ReceivedMatches(t, i);
      assert false;
    }
  }

  lemma ForgottenAhead(s: State, c: nat)
    requires c <= s.issued && MismatchAhead(s)
    ensures MismatchAhead(Forgotten(s, c))
  {
    hide MismatchAt, Forgotten;
    var steps, t, i :| Leads(steps, s, t) && MismatchAt(t, i);
    ForgottenRun(steps, s, t, c);
    ForgottenMismatch(t, c, i);
  }

  /** If the requester does not wait for the context, the rest agrees also without it. */
  lemma UnwaitedForgotten(s: State, c: nat, k: int)
    requires Inv(s) && c <= s.issued && !WaitsFor(s, c)
    ensures Inv(Forgotten(WithStranger(s, Message(Some(c), Some(k))), c))
  {
    hide Attempts, Current, Traffic;
    var u := Forgotten(WithStranger(s, Message(Some(c), Some(k))), c);
    UnwaitedConfirmations(s, c);
    UnwaitedTraffic(s, c);
    assert Attempts(u) by { SamePeers(s, u); }
  }

  lemma SamePeers(s: State, u: State)
    requires Attempts(s) && u.requester == s.requester && u.responder == s.responder
    requires u.submitted == s.submitted && u.replies == s.replies
    ensures Attempts(u)
  {
    hide Current;
  }

  lemma UnwaitedConfirmations(s: State, c: nat)
    requires Inv(s) && !WaitsFor(s, c)
    ensures Confirmations(s.sent - {c}, s.requester, s.replies)
  {
    hide Queues, Traffic, Contexts;
    forall a | a in s.replies ensures Confirmed(s.sent - {c}, s.requester, a) {
      assert Confirmed(s.sent, s.requester, a) && Current(a.side, PeerOf(s, a.side), a.attempt, a.op);
      var i :| 0 <= i < |s.replies| && s.replies[i] == a;
      assert Opens(s, i, c) ==> !s.requester.sending || s.requester.stopped;
    }
  }

  lemma UnwaitedTraffic(s: State, c: nat)
    requires Traffic(s.issued, s.sent, s.submitted, s.replies)
    ensures Traffic(s.issued, s.sent - {c}, s.submitted, s.replies)
  {
    forall r <- s.submitted ensures OperationOk(s.issued, s.sent - {c}, r.op) {
      assert OperationOk(s.issued, s.sent, r.op);
    }
    forall a <- s.replies ensures ReplyOk(s.issued, s.sent - {c}, a.op, a.reply) {
      assert ReplyOk(s.issued, s.sent, a.op, a.reply);
    }
  }

  // ---- both directions -----------------------------------------------------------------------------

  /** The number that belongs into a context that the requester waits for is harmless. */
  lemma ExpectedNumberAgrees(s: State, c: nat)
    requires Inv(s) && c <= s.issued && WaitsFor(s, c)
    ensures Inv(WithStranger(s, Message(Some(c), Some(s.requester.counter + 1))))
  {
    hide Attempts, Traffic;
    var u := WithStranger(s, Message(Some(c), Some(s.requester.counter + 1)));
    WaitedForNumber(s, c);
    assert Attempts(u) by { SamePeers(s, u); }
  }

  lemma WaitedForNumber(s: State, c: nat)
    requires Inv(s) && WaitsFor(s, c)
    ensures c in s.sent && s.sent[c] == s.requester.counter
  {
    hide Queues, Contexts;
    if s.requester.sending {
      var i: nat :| Opens(s, i, c);
      var a := s.replies[i];
      assert Confirmed(s.sent, s.requester, a) && Current(a.side, s.requester, a.attempt, a.op);
    }
  }

  /**
   In every reachable state, a stranger's number in any context issued so far can lead to a mismatch if and only
   if the requester waits for that context and it is not the number that the requester expects.
   */
  lemma StrangerMisleadsIff(s: State, c: nat, k: int)
    requires Reachable(s) && c <= s.issued
    ensures MismatchAhead(WithStranger(s, Message(Some(c), Some(k))))
       <==> WaitsFor(s, c) && k != s.requester.counter + 1
  {
    hide Reachable, Inv, MismatchAhead, WaitsFor;
    ReachableInv(s);
    var u := WithStranger(s, Message(Some(c), Some(k)));
    if WaitsFor(s, c) {
      if k == s.requester.counter + 1 {
        ExpectedNumberAgrees(s, c);
        AgreementPreventsMismatch(u);
      } else {
        WaitedForMisleads(s, c, k);
      }
    } else {
      UnwaitedForgotten(s, c, k);
      AgreementPreventsMismatch(Forgotten(u, c));
      if MismatchAhead(u) {
        ForgottenAhead(u, c);
      }
    }
  }
}
