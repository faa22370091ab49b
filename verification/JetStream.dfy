/** The in-memory stream: a log, its subscriptions, and notifications made outside the lock. */
module JetStream {

  datatype Message = Message(subject: string, payload: string, sequence: nat)

  /** A subscription's handler is outside code; the subscription's position names it. */
  datatype Subscription = Subscription(subject: string, durable: string)

  /** A message and the handlers a publish or redeliver copied under the lock but has not called yet. */
  datatype Task = Task(msg: Message, toNotify: seq<nat>)

  /** One call of a handler. */
  datatype Invocation = Invocation(sub: nat, msg: Message)

  datatype Broker = Broker(
    nextSequence: nat,
    lastAcked: nat,
    log: map<nat, Message>,
    subscriptions: seq<Subscription>,
    tasks: seq<Task>,
    invoked: seq<Invocation>)

  const Fresh := Broker(1, 0, map[], [], [], [])

  /** Everything that happens under the lock is one step, and so is each handler call. Handler calls of different
      tasks interleave freely: this covers concurrent callers as well as a handler that publishes or redelivers
      while the call that notified it still has handlers to call. */
  datatype Step =
    | Publish(subject: string, payload: string)
    | Subscribe(subject: string, durable: string)
    | Ack(sequence: nat)
    | Redeliver(sequence: nat)
    | Invoke(task: nat)

  /** The positions of the first `n` subscriptions that are on `subject`, in order. */
  function Matching(subscriptions: seq<Subscription>, subject: string, n: nat): seq<nat>
    requires n <= |subscriptions|
  {
    if n == 0 then []
    else
      Matching(subscriptions, subject, n - 1)
      + (if subscriptions[n - 1].subject == subject then [n - 1] else [])
  }

  function Notify(b: Broker, msg: Message): Task {
    Task(msg, Matching(b.subscriptions, msg.subject, |b.subscriptions|))
  }

  function Next(b: Broker, step: Step): Broker {
    match step
    case Publish(subject, payload) =>
      var msg := Message(subject, payload, b.nextSequence);
      b.(nextSequence := b.nextSequence + 1, log := b.log[msg.sequence := msg], tasks := b.tasks + [Notify(b, msg)])
    case Subscribe(subject, durable) =>
      b.(subscriptions := b.subscriptions + [Subscription(subject, durable)])
    case Ack(sequence) =>
      if sequence > b.lastAcked then b.(lastAcked := sequence) else b
    case Redeliver(sequence) =>
      if sequence in b.log then b.(tasks := b.tasks + [Notify(b, b.log[sequence])]) else b
    case Invoke(t) =>
      if t < |b.tasks| && b.tasks[t].toNotify != [] then
        var task := b.tasks[t];
        b.(tasks := b.tasks[t := task.(toNotify := task.toNotify[1..])],
           invoked := b.invoked + [Invocation(task.toNotify[0], task.msg)])
      else b
  }

  function Run(steps: seq<Step>): Broker {
    if steps == [] then Fresh
    else
      var n := |steps| - 1;
      Next(Run(steps[..n]), steps[n])
  }

  class InMemoryJetStream {
    var nextSequence: nat
    var lastAcked: nat
    var log: map<nat, Message>
    var subscriptions: seq<Subscription>
    var invoked: seq<Invocation>

    /** The state while `tasks` are under way. */
    ghost function View(tasks: seq<Task>): Broker
      reads this
    {
      Broker(nextSequence, lastAcked, log, subscriptions, tasks, invoked)
    }

    constructor ()
      ensures View([]) == Fresh
    {
      nextSequence, lastAcked, log, subscriptions, invoked := 1, 0, map[], [], [];
    }

    /** Copies the matching subscriptions, in order. */
    method Snapshot(subject: string) returns (toNotify: seq<nat>)
      ensures toNotify == Matching(subscriptions, subject, |subscriptions|)
    {
      toNotify := [];
      for i := 0 to |subscriptions|
        invariant toNotify == Matching(subscriptions, subject, i)
      {
        if subscriptions[i].subject == subject {
          toNotify := toNotify + [i];
        }
      }
    }

    /** The part of publish() that holds the lock. */
    method PublishLocked(subject: string, payload: string) returns (task: Task)
      modifies this`nextSequence, this`log
      ensures forall tasks :: View(tasks + [task]) == Next(old(View(tasks)), Publish(subject, payload))
    {
      var msg := Message(subject, payload, nextSequence);
      nextSequence := nextSequence + 1;
      log := log[msg.sequence := msg];
      var toNotify := Snapshot(subject);
      task := Task(msg, toNotify);
    }

    /** The part of redeliver() that holds the lock; nothing is to be notified for an unknown sequence. */
    method RedeliverLocked(sequence: nat) returns (known: bool, task: Task)
      ensures known == (sequence in log)
      ensures forall tasks :: View(if known then tasks + [task] else tasks) == Next(View(tasks), Redeliver(sequence))
    {
      known := sequence in log;
      if !known {
        return false, Task(Message("", "", 0), []);
      }
      var toNotify := Snapshot(log[sequence].subject);
      task := Task(log[sequence], toNotify);
    }

    /** Calls the copied handlers one after the other, outside the lock. */
    method NotifyAll(task: Task)
      modifies this`invoked
      ensures View([Task(task.msg, [])]) == Drained(old(View([task])))
    {
      var i := 0;
      ghost var start := View([task]);
      while i < |task.toNotify|
        invariant 0 <= i <= |task.toNotify|
        invariant Drained(View([Task(task.msg, task.toNotify[i..])])) == Drained(start)
      {
        ghost var before := View([Task(task.msg, task.toNotify[i..])]);
        invoked := invoked + [Invocation(task.toNotify[i], task.msg)];
        assert task.toNotify[i..][1..] == task.toNotify[i + 1..];
        assert before.tasks[0 := Task(task.msg, task.toNotify[i + 1..])] == [Task(task.msg, task.toNotify[i + 1..])];
        i := i + 1;
      }
    }

    method PublishMessage(subject: string, payload: string)
      modifies this`nextSequence, this`log, this`invoked
      ensures View([]) == Drained(Next(old(View([])), Publish(subject, payload))).(tasks := [])
    {
      var task := PublishLocked(subject, payload);
      assert View([] + [task]) == Next(old(View([])), Publish(subject, payload));
      assert [] + [task] == [task];
      NotifyAll(task);
    }

    method RedeliverMessage(sequence: nat)
      modifies this`invoked
      ensures View([]) == Drained(Next(old(View([])), Redeliver(sequence))).(tasks := [])
    {
      var known, task := RedeliverLocked(sequence);
      assert View(if known then [] + [task] else []) == Next(old(View([])), Redeliver(sequence));
      if !known {
        return;
      }
      assert [] + [task] == [task];
      NotifyAll(task);
    }

    method AddSubscription(subject: string, durable: string)
      modifies this`subscriptions
      ensures forall tasks :: View(tasks) == Next(old(View(tasks)), Subscribe(subject, durable))
    {
      subscriptions := subscriptions + [Subscription(subject, durable)];
    }

    method AckMessage(sequence: nat)
      modifies this`lastAcked
      ensures forall tasks :: View(tasks) == Next(old(View(tasks)), Ack(sequence))
    {
      if sequence > lastAcked {
        lastAcked := sequence;
      }
    }

    method LastPublishedSequence() returns (s: int)
      ensures s == nextSequence - 1
    {
      s := nextSequence - 1;
    }

    method LastAckedSequence() returns (s: nat)
      ensures s == lastAcked
    {
      s := lastAcked;
    }
  }

  /** The state once the first task has called all its handlers. */
  function Drained(b: Broker): Broker
    decreases if b.tasks == [] then 0 else |b.tasks[0].toNotify|
  {
    if b.tasks == [] || b.tasks[0].toNotify == [] then b else Drained(Next(b, Invoke(0)))
  }

  /** Draining calls the copied handlers once each, in subscription order, with the message they were copied for. */
  lemma {:induction false} DrainedCallsInOrder(b: Broker)
    requires b.tasks != []
    ensures var task := b.tasks[0];
            Drained(b) == b.(tasks := b.tasks[0 := task.(toNotify := [])],
                             invoked := b.invoked + seq(|task.toNotify|, k requires 0 <= k < |task.toNotify| =>
                                                          Invocation(task.toNotify[k], task.msg)))
    decreases |b.tasks[0].toNotify|
  {
    var task := b.tasks[0];
    var made := seq(|task.toNotify|, k requires 0 <= k < |task.toNotify| => Invocation(task.toNotify[k], task.msg));
    if task.toNotify == [] {
      assert b.tasks[0 := task] == b.tasks && b.invoked + made == b.invoked;
    } else {
      var b' := Next(b, Invoke(0));
      DrainedCallsInOrder(b');
      assert b'.tasks[0 := task.(toNotify := [])] == b.tasks[0 := task.(toNotify := [])];
      assert b.invoked + made == b'.invoked + made[1..];
    }
  }

  /** Draining is a run of handler calls, so what holds in every run holds after publish() and redeliver(). */
  lemma {:induction false} DrainedIsRun(steps: seq<Step>) returns (more: seq<Step>)
    ensures steps <= more && Run(more) == Drained(Run(steps))
    decreases var b := Run(steps); if b.tasks == [] then 0 else |b.tasks[0].toNotify|
  {
    var b := Run(steps);
    more := steps;
    if b.tasks != [] && b.tasks[0].toNotify != [] {
      var next := steps + [Invoke(0)];
      assert next[..|steps|] == steps;
      more := DrainedIsRun(next);
    }
  }

  // ----- What a history promises, without the broker's state -----

  /** The messages published so far, in order; the message with sequence s is at position s - 1. */
  function Published(history: seq<Step>): seq<Message> {
    if history == [] then []
    else
      var n := |history| - 1;
      var before := Published(history[..n]);
      match history[n]
      case Publish(subject, payload) => before + [Message(subject, payload, |before| + 1)]
      case _ => before
  }

  function Subscribed(history: seq<Step>): seq<Subscription> {
    if history == [] then []
    else
      var n := |history| - 1;
      var before := Subscribed(history[..n]);
      match history[n]
      case Subscribe(subject, durable) => before + [Subscription(subject, durable)]
      case _ => before
  }

  /** Whether the last step of a history hands message `s` to every subscription there is on its subject. */
  predicate HandsOut(history: seq<Step>, s: nat)
    requires history != []
  {
    var n := |history| - 1;
    match history[n]
    case Publish(_, _) => s == |Published(history[..n])| + 1
    case Redeliver(sequence) => s == sequence && 1 <= s <= |Published(history[..n])|
    case _ => false
  }

  /** How often subscription `i` has to see message `s`: once for the publish and once for every later redeliver,
      each only if the subscription existed by then, on the message's subject. */
  function Expected(history: seq<Step>, i: nat, s: nat): nat {
    if history == [] then 0
    else
      var n := |history| - 1;
      Expected(history[..n], i, s)
      + (if HandsOut(history, s)
            && i < |Subscribed(history)|
            && Subscribed(history)[i].subject == Published(history)[s - 1].subject
         then 1 else 0)
  }

  /** How often `i` is still to be called for message `s`. */
  function Pending(tasks: seq<Task>, i: nat, s: nat): nat {
    if tasks == [] then 0
    else
      var n := |tasks| - 1;
      Pending(tasks[..n], i, s) + InTask(tasks[n], i, s)
  }

  function InTask(task: Task, i: nat, s: nat): nat {
    if task.msg.sequence == s then multiset(task.toNotify)[i] else 0
  }

  /** How often `i` has been called for message `s`. */
  function Calls(invoked: seq<Invocation>, i: nat, s: nat): nat {
    if invoked == [] then 0
    else
      var n := |invoked| - 1;
      Calls(invoked[..n], i, s) + (if invoked[n].sub == i && invoked[n].msg.sequence == s then 1 else 0)
  }

  // ----- Every run -----

  /** The log's numbers run from 1 to the last one given, and each holds the message published under it. */
  ghost predicate LogHolds(log: map<nat, Message>, published: seq<Message>) {
    && (forall s: nat :: s in log <==> 1 <= s <= |published|)
    && forall s: nat :: 1 <= s <= |published| ==> log[s] == published[s - 1] && published[s - 1].sequence == s
  }

  lemma {:induction false} LogAppend(log: map<nat, Message>, published: seq<Message>, msg: Message)
    requires LogHolds(log, published) && msg.sequence == |published| + 1
    ensures LogHolds(log[msg.sequence := msg], published + [msg])
  {
    var log', more := log[msg.sequence := msg], published + [msg];
    forall s: nat | 1 <= s <= |more| ensures log'[s] == more[s - 1] && more[s - 1].sequence == s {
      assert s <= |published| ==> log[s] == published[s - 1] && more[s - 1] == published[s - 1];
    }
  }

  /** The log is exactly the published messages, under the numbers 1 to the last published one. */
  lemma {:induction false} LogIsHistory(steps: seq<Step>)
    ensures LogHolds(Run(steps).log, Published(steps)) && Run(steps).nextSequence == |Published(steps)| + 1
    ensures Run(steps).subscriptions == Subscribed(steps)
  {
    if steps != [] {
      var n := |steps| - 1;
      LogIsHistory(steps[..n]);
      if steps[n].Publish? {
        var before := Published(steps[..n]);
        LogAppend(Run(steps[..n]).log, before, Message(steps[n].subject, steps[n].payload, |before| + 1));
      }
    }
  }

  /** The message is one that was published, subject, bytes and number included. */
  ghost predicate Original(published: seq<Message>, msg: Message) {
    1 <= msg.sequence <= |published| && msg == published[msg.sequence - 1]
  }

  /** Every handler call, made or still to come, carries a message as it was published. */
  lemma {:induction false} BytesAreOriginal(steps: seq<Step>)
    ensures forall k :: 0 <= k < |Run(steps).invoked| ==> Original(Published(steps), Run(steps).invoked[k].msg)
    ensures forall t :: 0 <= t < |Run(steps).tasks| ==> Original(Published(steps), Run(steps).tasks[t].msg)
  {
    if steps != [] {
      var front := steps[..|steps| - 1];
      BytesAreOriginal(front);
      LogIsHistory(front);
      assert Published(front) <= Published(steps);
    }
  }

  /** Calls made and calls still to come. */
  function Owed(b: Broker, i: nat, s: nat): nat {
    Calls(b.invoked, i, s) + Pending(b.tasks, i, s)
  }

  /** In every interleaving, the calls made and the calls still to come add up to the calls the history asks for. */
  lemma {:induction false} DeliveryIsExact(steps: seq<Step>, i: nat, s: nat)
    ensures Calls(Run(steps).invoked, i, s) + Pending(Run(steps).tasks, i, s) == Expected(steps, i, s)
  {
    if steps != [] {
      var n := |steps| - 1;
      DeliveryIsExact(steps[..n], i, s);
      LogIsHistory(steps[..n]);
      StepOwes(Run(steps[..n]), steps[n], i, s);
      StepIsExpected(steps, i, s);
    }
  }

  /** The calls one step owes to `i` for message `s`. */
  function Handed(b: Broker, step: Step, i: nat, s: nat): nat {
    match step
    case Publish(subject, _) =>
      if s == b.nextSequence && OnSubject(b, i, subject) then 1 else 0
    case Redeliver(sequence) =>
      if s == sequence && s in b.log && OnSubject(b, i, b.log[s].subject) then 1 else 0
    case _ => 0
  }

  predicate OnSubject(b: Broker, i: nat, subject: string) {
    i < |b.subscriptions| && b.subscriptions[i].subject == subject
  }

  lemma {:induction false} StepOwes(b: Broker, step: Step, i: nat, s: nat)
    requires forall k :: k in b.log ==> b.log[k].sequence == k
    ensures Owed(Next(b, step), i, s) == Owed(b, i, s) + Handed(b, step, i, s)
  {
    match step
    case Publish(subject, payload) =>
      NotifyAdds(b, Message(subject, payload, b.nextSequence), i, s);
    case Redeliver(sequence) =>
      if sequence in b.log {
        NotifyAdds(b, b.log[sequence], i, s);
      }
    case Invoke(t) =>
      if t < |b.tasks| && b.tasks[t].toNotify != [] {
        InvokeMoves(b, t, i, s);
      }
    case _ =>
  }

  lemma {:induction false} StepIsExpected(steps: seq<Step>, i: nat, s: nat)
    requires steps != []
    ensures var n := |steps| - 1;
            Expected(steps, i, s) == Expected(steps[..n], i, s) + Handed(Run(steps[..n]), steps[n], i, s)
  {
    LogIsHistory(steps[..|steps| - 1]);
    LogIsHistory(steps);
  }

  /** A new task adds one call to come for each subscription on its subject. */
  lemma {:induction false} NotifyAdds(b: Broker, msg: Message, i: nat, s: nat)
    ensures Pending(b.tasks + [Notify(b, msg)], i, s)
         == Pending(b.tasks, i, s)
            + if s == msg.sequence && i < |b.subscriptions| && b.subscriptions[i].subject == msg.subject then 1 else 0
  {
    assert (b.tasks + [Notify(b, msg)])[..|b.tasks|] == b.tasks;
    MatchingIsExact(b.subscriptions, msg.subject, |b.subscriptions|, i);
  }

  /** Calling a handler turns a call to come into a call made. */
  lemma {:induction false} InvokeMoves(b: Broker, t: nat, i: nat, s: nat)
    requires t < |b.tasks| && b.tasks[t].toNotify != []
    ensures var b' := Next(b, Invoke(t));
            Calls(b'.invoked, i, s) + Pending(b'.tasks, i, s) == Calls(b.invoked, i, s) + Pending(b.tasks, i, s)
  {
    var task, b' := b.tasks[t], Next(b, Invoke(t));
    PendingUpdate(b.tasks, t, task.(toNotify := task.toNotify[1..]), i, s);
    assert task.toNotify == [task.toNotify[0]] + task.toNotify[1..];
    assert b'.invoked[..|b.invoked|] == b.invoked;
  }

  /** A snapshot names each matching subscription once and no other. */
  lemma {:induction false} MatchingIsExact(subscriptions: seq<Subscription>, subject: string, n: nat, i: nat)
    requires n <= |subscriptions|
    ensures multiset(Matching(subscriptions, subject, n))[i]
         == if i < n && subscriptions[i].subject == subject then 1 else 0
  {
    if n > 0 {
      MatchingIsExact(subscriptions, subject, n - 1, i);
      MatchingStep(subscriptions, subject, n, i);
    }
  }

  lemma {:induction false} MatchingStep(subscriptions: seq<Subscription>, subject: string, n: nat, i: nat)
    requires 0 < n <= |subscriptions|
    ensures multiset(Matching(subscriptions, subject, n))[i]
         == multiset(Matching(subscriptions, subject, n - 1))[i]
            + if i == n - 1 && subscriptions[i].subject == subject then 1 else 0
  {
    CountAppend(Matching(subscriptions, subject, n - 1), subscriptions[n - 1].subject == subject, n - 1, i);
  }

  lemma {:induction false} CountAppend(s: seq<nat>, matches: bool, x: nat, i: nat)
    ensures multiset(s + if matches then [x] else [])[i] == multiset(s)[i] + if matches && x == i then 1 else 0
  {
    assert s + [] == s;
  }

  lemma {:induction false} PendingUpdate(tasks: seq<Task>, t: nat, task: Task, i: nat, s: nat)
    requires t < |tasks|
    ensures Pending(tasks[t := task], i, s) == Pending(tasks, i, s) - InTask(tasks[t], i, s) + InTask(task, i, s)
  {
    var n := |tasks| - 1;
    if t < n {
      PendingUpdate(tasks[..n], t, task, i, s);
      assert tasks[t := task][..n] == tasks[..n][t := task];
    } else {
      assert tasks[t := task][..n] == tasks[..n];
    }
  }

  /** The highest number acknowledged, 0 if none. */
  ghost predicate IsMaxAcked(history: seq<Step>, top: nat) {
    && (top == 0 || exists j :: 0 <= j < |history| && history[j] == Ack(top))
    && forall j :: 0 <= j < |history| && history[j].Ack? ==> history[j].sequence <= top
  }

  /** The ack position is the maximum acknowledged, whatever the order and repetition of acks. */
  lemma {:induction false} AckIsMaximum(steps: seq<Step>)
    ensures IsMaxAcked(steps, Run(steps).lastAcked)
  {
    if steps != [] {
      var n := |steps| - 1;
      var front := steps[..n];
      AckIsMaximum(front);
      var top := Run(front).lastAcked;
      if j :| 0 <= j < |front| && front[j] == Ack(top) {
        assert steps[j] == Ack(top);
      }
      assert forall j :: 0 <= j < n ==> steps[j] == front[j];
      assert steps[n] == Ack(Run(steps).lastAcked) || Run(steps).lastAcked == top;
    }
  }

  /** ack() takes any number: the position stays within the stream exactly when only published numbers are acked. */
  lemma {:induction false} AckWithinStream(steps: seq<Step>)
    ensures Run(steps).lastAcked < Run(steps).nextSequence
       <==> forall j :: 0 <= j < |steps| && steps[j].Ack? ==> steps[j].sequence <= |Published(steps)|
  {
    AckIsMaximum(steps);
    LogIsHistory(steps);
  }
}
