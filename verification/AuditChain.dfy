/** The audit table: inserts pass the chain trigger, nothing else is granted, and the head hash fixes the whole past. */
module AuditChain {
  import opened Wrappers

  type Hash = string

  /** The values an INSERT offers; None is NULL. `routable` tells whether a partition covers the row's time. */
  datatype Request = Request(prev: Option<Hash>, event: Option<string>, hash: Option<Hash>, routable: bool)

  datatype Row = Row(id: nat, prev: Option<Hash>, event: string, hash: Hash)

  /** What the service's role may try on the table. */
  datatype Statement = Insert(request: Request) | Update | Delete | Truncate

  datatype Refusal = NoPartition | FirstHasPrevious | WrongPrevious | NullValue | PermissionDenied

  datatype Table = Table(rows: seq<Row>, next: nat)

  /** The row with the greatest number. */
  function Newest(rows: seq<Row>): Option<Row> {
    if rows == [] then None
    else
      var last := rows[|rows| - 1];
      match Newest(rows[..|rows| - 1])
      case None => Some(last)
      case Some(r) => Some(if last.id > r.id then last else r)
  }

  /** The trigger, then the NOT NULL columns. */
  function Objection(rows: seq<Row>, q: Request): Option<Refusal> {
    var head := Newest(rows);
    if !q.routable then Some(NoPartition)
    else if head.None? && q.prev.Some? then Some(FirstHasPrevious)
    else if head.Some? && q.prev != Some(head.value.hash) then Some(WrongPrevious)
    else if q.event.None? || q.hash.None? then Some(NullValue)
    else None
  }

  /** A refused insert has taken a number from the identity column all the same. */
  function Executed(t: Table, s: Statement): Table {
    match s
    case Insert(q) =>
      if Objection(t.rows, q).None? then
        Table(t.rows + [Row(t.next, q.prev, q.event.value, q.hash.value)], t.next + 1)
      else
        t.(next := t.next + 1)
    case _ => t
  }

  class AuditTable {
    var rows: seq<Row>
    var next: nat

    ghost function State(): Table
      reads this
    {
      Table(rows, next)
    }

    constructor ()
      ensures State() == Table([], 1)
    {
      rows, next := [], 1;
    }

    /** The head query: a scan for the greatest number. */
    method Head() returns (head: Option<Row>)
      ensures head == Newest(rows)
    {
      head := None;
      for i := 0 to |rows|
        invariant head == Newest(rows[..i])
      {
        assert rows[..i + 1][..i] == rows[..i];
        if head.None? || rows[i].id > head.value.id {
          head := Some(rows[i]);
        }
      }
      assert rows[..|rows|] == rows;
    }

    method Execute(s: Statement) returns (refusal: Option<Refusal>)
      modifies this
      ensures State() == Executed(old(State()), s)
      ensures refusal == if s.Insert? then Objection(old(rows), s.request) else Some(PermissionDenied)
    {
      match s {
        case Insert(q) =>
          var id := next;
          next := next + 1;
          if !q.routable {
            return Some(NoPartition);
          }
          var head := Head();
          if head.None? {
            if q.prev.Some? {
              return Some(FirstHasPrevious);
            }
          } else if q.prev != Some(head.value.hash) {
            return Some(WrongPrevious);
          }
          if q.event.None? || q.hash.None? {
            return Some(NullValue);
          }
          rows := rows + [Row(id, q.prev, q.event.value, q.hash.value)];
          return None;
        case _ =>
          return Some(PermissionDenied);
      }
    }
  }

  // ----- Runs -----

  function Run(statements: seq<Statement>): Table {
    if statements == [] then Table([], 1)
    else Executed(Run(statements[..|statements| - 1]), statements[|statements| - 1])
  }

  function Inserts(statements: seq<Statement>): nat {
    if statements == [] then 0
    else Inserts(statements[..|statements| - 1]) + (if statements[|statements| - 1].Insert? then 1 else 0)
  }

  function LastHash(rows: seq<Row>): Option<Hash> {
    if rows == [] then None else Some(rows[|rows| - 1].hash)
  }

  /** One linked list: the first row has no previous hash, every later one its predecessor's. */
  ghost predicate Linked(rows: seq<Row>) {
    forall i :: 0 <= i < |rows| ==> rows[i].prev == LastHash(rows[..i])
  }

  ghost predicate Ascending(rows: seq<Row>) {
    forall i, j :: 0 <= i < j < |rows| ==> rows[i].id < rows[j].id
  }

  lemma {:induction false} NewestIsLast(rows: seq<Row>)
    requires Ascending(rows)
    ensures Newest(rows) == if rows == [] then None else Some(rows[|rows| - 1])
  {
    if |rows| > 1 {
      NewestIsLast(rows[..|rows| - 1]);
    }
  }

  /** In every run of accepted and refused statements the rows, in the order of their numbers, form one linked list,
      and the numbers taken are those of the inserts, refused ones included. */
  lemma {:induction false} ChainIsLinked(statements: seq<Statement>)
    ensures Linked(Run(statements).rows) && Ascending(Run(statements).rows)
    ensures Run(statements).next == 1 + Inserts(statements)
    ensures forall r :: r in Run(statements).rows ==> 1 <= r.id < Run(statements).next
  {
    if statements != [] {
      var before := statements[..|statements| - 1];
      ChainIsLinked(before);
      NewestIsLast(Run(before).rows);
      var s := statements[|statements| - 1];
      if s.Insert? && Objection(Run(before).rows, s.request).None? {
        var q := s.request;
        AppendLinked(Run(before).rows, Row(Run(before).next, q.prev, q.event.value, q.hash.value));
      }
    }
  }

  lemma {:induction false} AppendLinked(rows: seq<Row>, r: Row)
    requires Linked(rows) && r.prev == LastHash(rows)
    ensures Linked(rows + [r])
  {
    forall i | 0 <= i <= |rows| ensures (rows + [r])[i].prev == LastHash((rows + [r])[..i]) {
      assert (rows + [r])[..i] == rows[..i];
      assert rows[..|rows|] == rows;
    }
  }

  /** An insert gets its row exactly when it is complete, has a partition, and names the hash of the last row. */
  lemma {:induction false} AcceptedIffLinksToHead(statements: seq<Statement>, q: Request)
    ensures Objection(Run(statements).rows, q).None? <==>
            q.routable && q.event.Some? && q.hash.Some? && q.prev == LastHash(Run(statements).rows)
  {
    ChainIsLinked(statements);
    NewestIsLast(Run(statements).rows);
  }

  /** Why an insert is refused, in terms of the last row: first the partition, then the link, then missing values. */
  lemma {:induction false} RefusalReasons(statements: seq<Statement>, q: Request)
    ensures var rows, objection := Run(statements).rows, Objection(Run(statements).rows, q);
            && (objection == Some(NoPartition) <==> !q.routable)
            && (objection == Some(FirstHasPrevious) <==> q.routable && rows == [] && q.prev.Some?)
            && (objection == Some(WrongPrevious) <==> q.routable && rows != [] && q.prev != LastHash(rows))
            && (objection == Some(NullValue) <==>
                  q.routable && q.prev == LastHash(rows) && (q.event.None? || q.hash.None?))
  {
    ChainIsLinked(statements);
    NewestIsLast(Run(statements).rows);
  }

  /** No statement of the service's role changes or removes a row. */
  lemma {:induction false} ChainOnlyGrows(statements: seq<Statement>, n: nat)
    requires n <= |statements|
    ensures Run(statements[..n]).rows <= Run(statements).rows
    decreases |statements|
  {
    if n == |statements| {
      assert statements[..n] == statements;
    } else {
      var before := statements[..|statements| - 1];
      assert before[..n] == statements[..n];
      ChainOnlyGrows(before, n);
    }
  }

  ghost predicate HasNumber(rows: seq<Row>, id: nat) {
    exists r :: r in rows && r.id == id
  }

  /** The numbers missing from the chain are exactly those of the refused inserts. */
  lemma {:induction false} GapsAreRefusals(statements: seq<Statement>, k: nat)
    requires k < |statements| && statements[k].Insert?
    ensures HasNumber(Run(statements).rows, 1 + Inserts(statements[..k])) <==>
            Objection(Run(statements[..k]).rows, statements[k].request).None?
    decreases |statements|, 1
  {
    var n := |statements| - 1;
    var before := statements[..n];
    ChainIsLinked(before);
    StepNumbers(Run(before), statements[n], 1 + Inserts(statements[..k]));
    if k < n {
      EarlierNumber(statements, k);
    }
  }

  lemma {:induction false} EarlierNumber(statements: seq<Statement>, k: nat)
    requires k < |statements| - 1 && statements[k].Insert?
    ensures Inserts(statements[..k]) < Inserts(statements[..|statements| - 1])
    ensures HasNumber(Run(statements[..|statements| - 1]).rows, 1 + Inserts(statements[..k])) <==>
            Objection(Run(statements[..k]).rows, statements[k].request).None?
    decreases |statements|, 0
  {
    var before := statements[..|statements| - 1];
    GapsAreRefusals(before, k);
    assert before[..k] == statements[..k];
    LaterIsGreater(statements, k);
  }

  lemma {:induction false} StepNumbers(t: Table, s: Statement, id: nat)
    requires forall r :: r in t.rows ==> r.id < t.next
    ensures id != t.next ==> (HasNumber(Executed(t, s).rows, id) <==> HasNumber(t.rows, id))
    ensures s.Insert? && id == t.next ==>
              (HasNumber(Executed(t, s).rows, id) <==> Objection(t.rows, s.request).None?)
  {
    if s.Insert? && Objection(t.rows, s.request).None? {
      AppendNumber(t.rows, Row(t.next, s.request.prev, s.request.event.value, s.request.hash.value), id);
    }
  }

  lemma {:induction false} AppendNumber(rows: seq<Row>, r: Row, id: nat)
    ensures HasNumber(rows + [r], id) <==> HasNumber(rows, id) || r.id == id
  {
    assert forall x :: x in rows + [r] <==> x in rows || x == r;
    assert r in rows + [r];
  }

  lemma {:induction false} LaterIsGreater(statements: seq<Statement>, k: nat)
    requires k < |statements| - 1 && statements[k].Insert?
    ensures Inserts(statements[..|statements| - 1]) > Inserts(statements[..k])
    decreases |statements|
  {
    var before := statements[..|statements| - 1];
    assert before[..k] == statements[..k];
    if k < |before| - 1 {
      LaterIsGreater(before, k);
    }
  }

  // ----- The head fixes the past -----

  /** The rows follow the writer's formula: each hash is that of the previous hash and the event. */
  ghost predicate Formula(rows: seq<Row>, h: (Option<Hash>, string) -> Hash) {
    forall i :: 0 <= i < |rows| ==> rows[i].hash == h(rows[i].prev, rows[i].event)
  }

  function Events(rows: seq<Row>): (events: seq<string>)
    ensures |events| == |rows|
  {
    if rows == [] then [] else Events(rows[..|rows| - 1]) + [rows[|rows| - 1].event]
  }

  ghost predicate Collides(a: Row, b: Row, h: (Option<Hash>, string) -> Hash) {
    (a.prev, a.event) != (b.prev, b.event) && h(a.prev, a.event) == h(b.prev, b.event)
  }

  /** Two chains that follow the formula and end in the same hash hold the same events, or contain a collision of the
      hash function, found by walking both back from the head. */
  lemma {:induction false} SameHeadSameEvents(a: seq<Row>, b: seq<Row>, h: (Option<Hash>, string) -> Hash)
    requires Linked(a) && Linked(b) && Formula(a, h) && Formula(b, h) && LastHash(a) == LastHash(b)
    ensures Events(a) == Events(b) || exists i, j :: 0 <= i < |a| && 0 <= j < |b| && Collides(a[i], b[j], h)
  {
    if a != [] {
      var m, n := |a| - 1, |b| - 1;
      assert a[m].prev == LastHash(a[..m]) && b[n].prev == LastHash(b[..n]);
      if !Collides(a[m], b[n], h) {
        DropLastLinked(a);
        DropLastLinked(b);
        SameHeadSameEvents(a[..m], b[..n], h);
        if i, j :| 0 <= i < m && 0 <= j < n && Collides(a[..m][i], b[..n][j], h) {
          assert Collides(a[i], b[j], h);
        }
      }
    }
  }

  lemma {:induction false} DropLastLinked(rows: seq<Row>)
    requires Linked(rows) && rows != []
    ensures Linked(rows[..|rows| - 1])
  {
    var n := |rows| - 1;
    forall i | 0 <= i < n ensures rows[..n][i].prev == LastHash(rows[..n][..i]) {
      assert rows[..n][..i] == rows[..i];
    }
  }

  ghost predicate Injective(h: (Option<Hash>, string) -> Hash) {
    forall p, e, p', e' :: h(p, e) == h(p', e') ==> p == p' && e == e'
  }

  /** Hence, with a hash function free of collisions, two runs whose writers kept to the formula have the same head
      exactly when they recorded the same events in the same order. */
  lemma {:induction false} EqualHeadsIffEqualEvents(s: seq<Statement>, s': seq<Statement>,
                                                      h: (Option<Hash>, string) -> Hash)
    requires Injective(h) && Formula(Run(s).rows, h) && Formula(Run(s').rows, h)
    ensures LastHash(Run(s).rows) == LastHash(Run(s').rows) <==> Events(Run(s).rows) == Events(Run(s').rows)
  {
    var a, b := Run(s).rows, Run(s').rows;
    ChainIsLinked(s);
    ChainIsLinked(s');
    if LastHash(a) == LastHash(b) {
      SameHeadSameEvents(a, b, h);
    }
    if Events(a) == Events(b) {
      EventsFixHead(a, b, h);
    }
  }

  lemma {:induction false} EventsFixHead(a: seq<Row>, b: seq<Row>, h: (Option<Hash>, string) -> Hash)
    requires Linked(a) && Linked(b) && Formula(a, h) && Formula(b, h) && Events(a) == Events(b)
    ensures LastHash(a) == LastHash(b)
  {
    if a != [] {
      var n := |a| - 1;
      assert Events(a) == Events(a[..n]) + [a[n].event] && Events(b) == Events(b[..n]) + [b[n].event];
      assert Events(a)[..n] == Events(a[..n]) && Events(b)[..n] == Events(b[..n]);
      DropLastLinked(a);
      DropLastLinked(b);
      EventsFixHead(a[..n], b[..n], h);
      assert Events(a)[n] == a[n].event && Events(b)[n] == b[n].event;
    }
  }

  /** The writer's side: the request that extends this chain by the formula. */
  function Written(rows: seq<Row>, event: string, h: (Option<Hash>, string) -> Hash): Request {
    var prev := LastHash(rows);
    Request(prev, Some(event), Some(h(prev, event)), true)
  }

  /** A writer that keeps to the formula is never refused, and its rows keep to it. */
  lemma {:induction false} WriterIsAccepted(statements: seq<Statement>, event: string,
                                              h: (Option<Hash>, string) -> Hash)
    requires Formula(Run(statements).rows, h)
    ensures var after := Run(statements + [Insert(Written(Run(statements).rows, event, h))]);
            Formula(after.rows, h) && Events(after.rows) == Events(Run(statements).rows) + [event]
  {
    var q := Written(Run(statements).rows, event, h);
    AcceptedIffLinksToHead(statements, q);
    assert (statements + [Insert(q)])[..|statements|] == statements;
    var rows := Run(statements + [Insert(q)]).rows;
    assert rows[..|rows| - 1] == Run(statements).rows;
  }

  /** An accepted row keeps the chain to the formula exactly if the writer computed its hash by it. */
  lemma {:induction false} FormulaKeptIff(statements: seq<Statement>, q: Request, h: (Option<Hash>, string) -> Hash)
    requires Objection(Run(statements).rows, q).None?
    ensures Formula(Run(statements + [Insert(q)]).rows, h) <==>
            Formula(Run(statements).rows, h) && q.hash.value == h(LastHash(Run(statements).rows), q.event.value)
  {
    AcceptedIffLinksToHead(statements, q);
    assert (statements + [Insert(q)])[..|statements|] == statements;
    var before := Run(statements).rows;
    var row := Row(Run(statements).next, q.prev, q.event.value, q.hash.value);
    assert Run(statements + [Insert(q)]).rows == before + [row];
    assert (before + [row])[|before|] == row;
    assert forall i :: 0 <= i < |before| ==> (before + [row])[i] == before[i];
  }

  /** The trigger checks linkage alone: without the formula, two accepted chains can tell different events under one
      head. */
  lemma {:induction false} LinkageAloneIsNotEnough(event: string, event': string, hash: Hash)
    requires event != event'
    ensures var a := Run([Insert(Request(None, Some(event), Some(hash), true))]).rows;
            var b := Run([Insert(Request(None, Some(event'), Some(hash), true))]).rows;
            Linked(a) && Linked(b) && LastHash(a) == LastHash(b) == Some(hash) && Events(a) != Events(b)
  {
    OneRow(event, hash);
    OneRow(event', hash);
    assert Events([Row(1, None, event, hash)])[0] == event;
    assert Events([Row(1, None, event', hash)])[0] == event';
  }

  lemma {:induction false} OneRow(event: string, hash: Hash)
    ensures var rows := Run([Insert(Request(None, Some(event), Some(hash), true))]).rows;
            rows == [Row(1, None, event, hash)] && Linked(rows)
  {
    var s := [Insert(Request(None, Some(event), Some(hash), true))];
    ChainIsLinked(s);
    assert s[..0] == [];
  }
}
