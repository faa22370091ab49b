/** When a subscription sees the messages of its subject in the order of their numbers. */
module DeliveryOrder {
  import opened JetStream

  /** No snapshotted handler is still to be called. */
  ghost predicate Idle(b: Broker) {
    forall t :: 0 <= t < |b.tasks| ==> b.tasks[t].toNotify == []
  }

  predicate NoRedelivery(steps: seq<Step>) {
    forall n :: 0 <= n < |steps| ==> !steps[n].Redeliver?
  }

  /** Calls of one subscription carry increasing numbers. */
  ghost predicate InOrder(invoked: seq<Invocation>) {
    forall a, b :: 0 <= a < b < |invoked| && invoked[a].sub == invoked[b].sub ==>
      invoked[a].msg.sequence < invoked[b].msg.sequence
  }

  /** In order so far, and what is still to be called is newer than what has been. */
  ghost predicate Ordered(b: Broker) {
    && InOrder(b.invoked)
    && forall t, k :: 0 <= t < |b.tasks| && 0 <= k < |b.invoked| && b.invoked[k].sub in b.tasks[t].toNotify ==>
         b.invoked[k].msg.sequence < b.tasks[t].msg.sequence
  }

  /** This step calls no handler for which an older notification is still under way. */
  ghost predicate Patient(b: Broker, step: Step) {
    step.Invoke? && step.task < |b.tasks| && b.tasks[step.task].toNotify != [] ==>
      forall t :: 0 <= t < step.task ==> b.tasks[step.task].toNotify[0] !in b.tasks[t].toNotify
  }

  /** No step of the run does. */
  ghost predicate NoOvertaking(steps: seq<Step>) {
    steps == [] ||
    (NoOvertaking(steps[..|steps| - 1]) && Patient(Run(steps[..|steps| - 1]), steps[|steps| - 1]))
  }

  predicate Rising(positions: seq<nat>) {
    forall i, j :: 0 <= i < j < |positions| ==> positions[i] < positions[j]
  }

  /** Without redelivery, task t carries message t + 1, and handlers are listed in subscription order. */
  ghost predicate Numbered(b: Broker) {
    && b.nextSequence == |b.tasks| + 1
    && (forall t :: 0 <= t < |b.tasks| ==> b.tasks[t].msg.sequence == t + 1 && Rising(b.tasks[t].toNotify))
    && forall k :: 0 <= k < |b.invoked| ==> b.invoked[k].msg.sequence < b.nextSequence
  }

  lemma {:induction false} MatchingRises(subscriptions: seq<Subscription>, subject: string, n: nat)
    requires n <= |subscriptions|
    ensures Rising(Matching(subscriptions, subject, n))
    ensures forall i :: i in Matching(subscriptions, subject, n) ==> i < n
  {
    if n > 0 {
      MatchingRises(subscriptions, subject, n - 1);
      var before := Matching(subscriptions, subject, n - 1);
      assert forall k :: 0 <= k < |before| ==> before[k] in before;
    }
  }

  lemma {:induction false} StepIsNumbered(b: Broker, step: Step)
    requires Numbered(b) && !step.Redeliver?
    ensures Numbered(Next(b, step))
  {
    match step
    case Publish(subject, payload) =>
      MatchingRises(b.subscriptions, subject, |b.subscriptions|);
    case Invoke(t) =>
    case _ =>
  }

  /** What a handler call leaves of its task. */
  lemma {:induction false} RestOf(positions: seq<nat>)
    requires Rising(positions) && positions != []
    ensures forall i :: i in positions <==> i == positions[0] || i in positions[1..]
    ensures positions[0] !in positions[1..]
  {
  }

  lemma {:induction false} PublishKeepsOrder(b: Broker, subject: string, payload: string)
    requires Numbered(b)
    ensures Ordered(Next(b, Publish(subject, payload))) <==> Ordered(b)
  {
    var b' := Next(b, Publish(subject, payload));
    assert forall t :: 0 <= t < |b.tasks| ==> b'.tasks[t] == b.tasks[t];
  }

  lemma {:induction false} InvokeKeepsOrderIff(b: Broker, t: nat)
    requires Numbered(b) && t < |b.tasks| && b.tasks[t].toNotify != []
    ensures Ordered(Next(b, Invoke(t))) <==> Ordered(b) && Patient(b, Invoke(t))
  {
    RestOf(b.tasks[t].toNotify);
    if Ordered(b) && Patient(b, Invoke(t)) {
      PatientKeepsOrder(b, t);
    }
    if Ordered(Next(b, Invoke(t))) {
      OrderWasKept(b, t);
    }
  }

  lemma {:induction false} PatientKeepsOrder(b: Broker, t: nat)
    requires Numbered(b) && t < |b.tasks| && b.tasks[t].toNotify != [] && Ordered(b) && Patient(b, Invoke(t))
    ensures Ordered(Next(b, Invoke(t)))
  {
    var i := b.tasks[t].toNotify[0];
    var b' := Next(b, Invoke(t));
    RestOf(b.tasks[t].toNotify);
    assert b'.invoked == b.invoked + [Invocation(i, b.tasks[t].msg)];
    forall u, k | 0 <= u < |b'.tasks| && 0 <= k < |b'.invoked| && b'.invoked[k].sub in b'.tasks[u].toNotify
      ensures b'.invoked[k].msg.sequence < b'.tasks[u].msg.sequence
    {
      assert b'.invoked[k].sub in b.tasks[u].toNotify;
    }
  }

  lemma {:induction false} OrderWasKept(b: Broker, t: nat)
    requires Numbered(b) && t < |b.tasks| && b.tasks[t].toNotify != [] && Ordered(Next(b, Invoke(t)))
    ensures Ordered(b) && Patient(b, Invoke(t))
  {
    var i := b.tasks[t].toNotify[0];
    var b' := Next(b, Invoke(t));
    var n := |b.invoked|;
    RestOf(b.tasks[t].toNotify);
    assert b'.invoked[n] == Invocation(i, b.tasks[t].msg);
    forall x, y | 0 <= x < y < n && b.invoked[x].sub == b.invoked[y].sub
      ensures b.invoked[x].msg.sequence < b.invoked[y].msg.sequence
    {
      assert b'.invoked[x] == b.invoked[x] && b'.invoked[y] == b.invoked[y];
    }
    forall u, k | 0 <= u < |b.tasks| && 0 <= k < n && b.invoked[k].sub in b.tasks[u].toNotify
      ensures b.invoked[k].msg.sequence < b.tasks[u].msg.sequence
    {
      assert b'.invoked[k] == b.invoked[k];
      if u == t && b.invoked[k].sub == i {
        assert b'.invoked[k].sub == b'.invoked[n].sub;
      } else {
        assert b'.invoked[k].sub in b'.tasks[u].toNotify;
      }
    }
    forall u | 0 <= u < t ensures i !in b.tasks[u].toNotify {
      var older, call := b'.tasks[u], b'.invoked[n];
      assert older == b.tasks[u] && older.msg.sequence == u + 1;
      assert call.sub !in older.toNotify || call.msg.sequence < older.msg.sequence;
    }
  }

  lemma {:induction false} StepKeepsOrderIff(b: Broker, step: Step)
    requires Numbered(b) && !step.Redeliver?
    ensures Ordered(Next(b, step)) <==> Ordered(b) && Patient(b, step)
  {
    match step
    case Publish(subject, payload) => PublishKeepsOrder(b, subject, payload);
    case Invoke(t) =>
      if t < |b.tasks| && b.tasks[t].toNotify != [] {
        InvokeKeepsOrderIff(b, t);
      }
    case _ =>
  }

  lemma {:induction false} OrderedIffNoOvertaking(steps: seq<Step>)
    requires NoRedelivery(steps)
    ensures Numbered(Run(steps)) && (Ordered(Run(steps)) <==> NoOvertaking(steps))
  {
    if steps != [] {
      var n := |steps| - 1;
      OrderedIffNoOvertaking(steps[..n]);
      StepIsNumbered(Run(steps[..n]), steps[n]);
      StepKeepsOrderIff(Run(steps[..n]), steps[n]);
    }
  }

  /** Exactly: when all handlers have been called and nothing was redelivered, every subscription has seen its messages
      in the order of their numbers if and only if no handler was called while an older notification of it was still
      under way. */
  lemma {:induction false} InOrderIff(steps: seq<Step>)
    requires NoRedelivery(steps) && Idle(Run(steps))
    ensures InOrder(Run(steps).invoked) <==> NoOvertaking(steps)
  {
    OrderedIffNoOvertaking(steps);
  }

  /** Every publish is notified through before the next one. */
  ghost predicate OneByOne(steps: seq<Step>) {
    forall n :: 0 <= n < |steps| && steps[n].Publish? ==> Idle(Run(steps[..n]))
  }

  ghost predicate OnlyNewest(b: Broker) {
    forall t :: 0 <= t < |b.tasks| - 1 ==> b.tasks[t].toNotify == []
  }

  lemma {:induction false} OneByOneIsPatient(steps: seq<Step>)
    requires NoRedelivery(steps) && OneByOne(steps)
    ensures NoOvertaking(steps) && OnlyNewest(Run(steps))
  {
    if steps != [] {
      var n := |steps| - 1;
      forall k | 0 <= k < n && steps[..n][k].Publish? ensures Idle(Run(steps[..n][..k])) {
        assert steps[..n][..k] == steps[..k];
      }
      OneByOneIsPatient(steps[..n]);
    }
  }

  /** In particular, if publishes do not interleave, every subscription sees its messages in order at every moment. */
  lemma {:induction false} OneByOneIsInOrder(steps: seq<Step>)
    requires NoRedelivery(steps) && OneByOne(steps)
    ensures InOrder(Run(steps).invoked)
  {
    OneByOneIsPatient(steps);
    OrderedIffNoOvertaking(steps);
  }

  /** Two publishes whose notifications interleave can reach a subscription in the opposite order. */
  lemma {:induction false} InterleavedIsOutOfOrder(subject: string) returns (steps: seq<Step>)
    ensures Run(steps).invoked == [Invocation(0, Message(subject, "b", 2)), Invocation(0, Message(subject, "a", 1))]
    ensures !InOrder(Run(steps).invoked)
  {
    var s1 := [Subscribe(subject, "")];
    var s2 := s1 + [Publish(subject, "a")];
    var s3 := s2 + [Publish(subject, "b")];
    var s4 := s3 + [Invoke(1)];
    steps := s4 + [Invoke(0)];
    OneMatch(subject);
    RunStep([], Subscribe(subject, ""), s1);
    assert Run(s1).subscriptions == [Subscription(subject, "")] && Run(s1).nextSequence == 1 && Run(s1).tasks == [];
    RunStep(s1, Publish(subject, "a"), s2);
    assert Run(s2).tasks == [Task(Message(subject, "a", 1), [0])];
    RunStep(s2, Publish(subject, "b"), s3);
    assert Run(s3).tasks == [Task(Message(subject, "a", 1), [0]), Task(Message(subject, "b", 2), [0])];
    RunStep(s3, Invoke(1), s4);
    assert Run(s4).invoked == [Invocation(0, Message(subject, "b", 2))];
    assert Run(s4).tasks[0] == Task(Message(subject, "a", 1), [0]);
    RunStep(s4, Invoke(0), steps);
    var invoked := Run(steps).invoked;
    assert invoked == [Invocation(0, Message(subject, "b", 2)), Invocation(0, Message(subject, "a", 1))];
    assert invoked[0].sub == invoked[1].sub;
  }

  lemma {:induction false} OneMatch(subject: string)
    ensures Matching([Subscription(subject, "")], subject, 1) == [0]
  {
    assert Matching([Subscription(subject, "")], subject, 0) == [];
  }

  lemma {:induction false} RunStep(steps: seq<Step>, step: Step, more: seq<Step>)
    requires more == steps + [step]
    ensures Run(more) == Next(Run(steps), step)
  {
    assert more[..|steps|] == steps;
  }
}
