/**
 * InputBinding: the ports of one node and the aligned acquire that joins them.
 * An acquire runs under the binding's mutex and is one atomic step.
 */
module InputBinding {
  import opened Wrappers
  import opened EdgeChannels
  import opened InputPorts

  /** A packet with the position of its port in the port table. */
  datatype Item = Item(port: nat, packet: Packet)

  datatype Batch = Batch(entries: seq<Item>, events: seq<Item>)

  /** The counters of data packets that were popped and not delivered. */
  datatype Drops = Drops(stale: nat, late: nat)

  function Plus(c: Drops, d: Drops): Drops {
    Drops(c.stale + d.stale, c.late + d.late)
  }

  function Lost(d: Drops): nat {
    d.stale + d.late
  }

  // -------------------------------------------------------------------------
  // What was popped from a port

  /** How many data packets, and which events. */
  datatype Book = Book(data: nat, events: seq<Packet>)

  function Noted(b: Book, x: Packet): Book {
    match x
    case Data(_, _) => b.(data := b.data + 1)
    case Event(_) => b.(events := b.events + [x])
    case Eos => b
  }

  function BookOf(pops: seq<Pop>): Book {
    if pops == [] then Book(0, []) else Noted(BookOf(pops[..|pops| - 1]), pops[|pops| - 1].packet)
  }

  function Added(b: Book, data: nat, events: seq<Packet>): Book {
    Book(b.data + data, b.events + events)
  }

  lemma {:induction false} TakeBook(p: Port)
    requires Bound(p) && Head(p).Some?
    ensures BookOf(TakeHead(p).popped) == Noted(BookOf(p.popped), Head(p).value)
  {
    assert TakeHead(p).popped[..|p.popped|] == p.popped;
  }

  lemma {:induction false} AddedNoted(b: Book, data: nat, events: seq<Packet>, x: Packet)
    ensures Noted(Added(b, data, events), x)
         == Added(b, data + if x.Data? then 1 else 0, if x.Event? then events + [x] else events)
  {
    assert b.events + events + [x] == b.events + (events + [x]);
  }

  lemma {:induction false} AddedTwice(b: Book, m: nat, es: seq<Packet>, n: nat, fs: seq<Packet>)
    ensures Added(Added(b, m, es), n, fs) == Added(b, m + n, es + fs)
    ensures Added(b, 0, []) == b
  {
    assert b.events + es + fs == b.events + (es + fs);
  }

  /** Same port, perhaps drained further; an ended port stays ended. */
  ghost predicate Advances(p: Port, q: Port) {
    && Valid(q) && Queued(q) <= Queued(p)
    && q.name == p.name && q.required == p.required && q.edge == p.edge
    && (p.ended ==> q.ended)
  }

  /** Data taken off a port in passing: behind the marker of the current edge, or older than the window. */
  ghost predicate Skipped(q: Port, x: Pop, oldest: Option<int>) {
    (q.ended && q.edge == Some(x.edge)) || (oldest.Some? && x.packet.Data? && x.packet.pts < oldest.value)
  }

  ghost predicate SkipsOnly(p: Port, q: Port, oldest: Option<int>) {
    && p.popped <= q.popped
    && forall k :: |p.popped| <= k < |q.popped| && q.popped[k].packet.Data? ==> Skipped(q, q.popped[k], oldest)
  }

  /** A head that is not data, or is data behind the marker of the current edge. */
  predicate NeedsSkim(p: Port)
    requires Bound(p)
  {
    Head(p).Some? && !(Head(p).value.Data? && (p.ended ==> IsPredecessor(p, Active(p).value)))
  }

  /** What one turn of SkimHead does with such a head. */
  function SkimOne(p: Port): Port
    requires Bound(p) && NeedsSkim(p)
  {
    if Head(p).value.Eos? then
      if IsPredecessor(p, Active(p).value) then FinishPredecessor(p) else EndPort(p)
    else TakeHead(p)
  }

  lemma {:induction false} SkimOneAdvances(p: Port)
    requires Valid(p) && NeedsSkim(p)
    ensures Advances(p, SkimOne(p)) && Queued(SkimOne(p)) < Queued(p)
  {
    TakeQueued(p);
    if !Head(p).value.Eos? {
      TakeValid(p);
    } else if IsPredecessor(p, Active(p).value) {
      FinishQueued(p);
      FinishPredecessorValid(p);
    } else {
      StepValid(p, Ended);
      assert Line(EndPort(p)) == Line(TakeHead(p));
    }
  }

  /** The head is popped, and only data behind the marker is popped as data. */
  lemma {:induction false} SkimOnePops(p: Port)
    requires Bound(p) && NeedsSkim(p)
    ensures SkimOne(p).popped == p.popped + [Pop(Active(p).value, Head(p).value)]
    ensures Head(p).value.Data? ==> p.ended && p.edge == Active(p) && SkimOne(p).ended
    ensures BookOf(SkimOne(p).popped) == Noted(BookOf(p.popped), Head(p).value)
  {
    TakeBook(p);
  }

  lemma {:induction false} SkipsMore(p: Port, q: Port, r: Port, x: Pop, oldest: Option<int>)
    requires SkipsOnly(p, q, oldest) && r.popped == q.popped + [x] && q.edge == r.edge && (q.ended ==> r.ended)
    requires x.packet.Data? ==> Skipped(r, x, oldest)
    ensures SkipsOnly(p, r, oldest)
  {
    forall k | |p.popped| <= k < |r.popped| && r.popped[k].packet.Data? ensures Skipped(r, r.popped[k], oldest) {
      if k < |q.popped| {
        assert q.popped[k] == r.popped[k];
      }
    }
  }

  /** The pops between p and q account for the events and for the number of dropped data packets. */
  ghost predicate Drained(p: Port, q: Port, oldest: Option<int>, events: seq<Packet>, dropped: nat) {
    && SkipsOnly(p, q, oldest) && q.edge == p.edge && (p.ended ==> q.ended)
    && BookOf(q.popped) == Added(BookOf(p.popped), dropped, events)
  }

  lemma {:induction false} DrainedNone(p: Port, oldest: Option<int>)
    ensures Drained(p, p, oldest, [], 0)
  {
    AddedTwice(BookOf(p.popped), 0, [], 0, []);
  }

  lemma {:induction false} DrainedTwice(p: Port, q: Port, r: Port, oldest: Option<int>, es: seq<Packet>, m: nat,
        fs: seq<Packet>, n: nat)
    requires Drained(p, q, oldest, es, m) && Drained(q, r, oldest, fs, n)
    ensures Drained(p, r, oldest, es + fs, m + n)
  {
    AddedTwice(BookOf(p.popped), m, es, n, fs);
    SkipsThrough(p, q, r, oldest);
  }

  lemma {:induction false} SkimOneDrains(p: Port, q: Port, oldest: Option<int>, events: seq<Packet>, dropped: nat)
    requires Drained(p, q, oldest, events, dropped) && Bound(q) && NeedsSkim(q)
    ensures var x := Head(q).value;
            Drained(p, SkimOne(q), oldest, if x.Event? then events + [x] else events, dropped + if x.Data? then 1 else 0)
  {
    SkimOnePops(q);
    SkipsMore(p, q, SkimOne(q), Pop(Active(q).value, Head(q).value), oldest);
    AddedNoted(BookOf(p.popped), dropped, events, Head(q).value);
  }

  /** A data head older than the window is popped. */
  lemma {:induction false} LateOneDrains(p: Port, q: Port, oldest: int, events: seq<Packet>, dropped: nat)
    requires Drained(p, q, Some(oldest), events, dropped) && Bound(q)
    requires Head(q).Some? && Head(q).value.Data? && Head(q).value.pts < oldest
    ensures Drained(p, TakeHead(q), Some(oldest), events, dropped + 1)
  {
    TakeBook(q);
    AddedNoted(BookOf(p.popped), dropped, events, Head(q).value);
    SkipsMore(p, q, TakeHead(q), Pop(Active(q).value, Head(q).value), Some(oldest));
  }

  /** Pops markers, events and stale data until data or nothing is left. */
  method SkimAll(p: Port, ghost oldest: Option<int>) returns (q: Port, events: seq<Packet>, stale: nat)
    requires Valid(p)
    ensures Advances(p, q) && !NeedsSkim(q) && Drained(p, q, oldest, events, stale)
  {
    q, events, stale := p, [], 0;
    DrainedNone(p, oldest);
    while NeedsSkim(q)
      invariant Advances(p, q) && Drained(p, q, oldest, events, stale)
      decreases Queued(q)
    {
      SkimOneAdvances(q);
      SkimOneDrains(p, q, oldest, events, stale);
      if Head(q).value.Event? {
        events := events + [Head(q).value];
      } else if Head(q).value.Data? {
        stale := stale + 1;
      }
      q := SkimOne(q);
    }
  }

  /** SkimHead; a port whose head is live data, or that has none, is left alone. */
  method Skim(p: Port, ghost oldest: Option<int>) returns (q: Port, events: seq<Packet>, stale: nat)
    requires Valid(p)
    ensures Advances(p, q) && !NeedsSkim(q) && Drained(p, q, oldest, events, stale)
    ensures !NeedsSkim(p) ==> q == p
  {
    if NeedsSkim(p) {
      q, events, stale := SkimAll(p, oldest);
    } else {
      DrainedNone(p, oldest);
      q, events, stale := p, [], 0;
    }
  }

  /** The pop of a head that is too old, and the skimming after it. */
  lemma {:induction false} LateThenSkim(p: Port, r: Port, oldest: int, events: seq<Packet>, stale: nat)
    requires Bound(p) && Head(p).Some? && Head(p).value.Data? && Head(p).value.pts < oldest
    requires Drained(TakeHead(p), r, Some(oldest), events, stale)
    ensures Drained(p, r, Some(oldest), events, 1 + stale)
  {
    DrainedNone(p, Some(oldest));
    LateOneDrains(p, p, oldest, [], 0);
    DrainedTwice(p, TakeHead(p), r, Some(oldest), [], 1, events, stale);
    assert [] + events == events;
  }

  method DropOne(p: Port, oldest: int) returns (q: Port, events: seq<Packet>, stale: nat)
    requires Valid(p) && Head(p).Some? && Head(p).value.Data? && Head(p).value.pts < oldest
    ensures Advances(p, q) && !NeedsSkim(q) && Queued(q) < Queued(p)
    ensures Drained(p, q, Some(oldest), events, 1 + stale)
  {
    TakeQueued(p);
    TakeValid(p);
    q, events, stale := Skim(TakeHead(p), Some(oldest));
    LateThenSkim(p, q, oldest, events, stale);
  }

  /** Drops heads older than the window, one after another. */
  method DropWhileLate(p: Port, oldest: int) returns (q: Port, events: seq<Packet>, drops: Drops)
    requires Valid(p) && !NeedsSkim(p)
    ensures Advances(p, q) && !NeedsSkim(q) && Drained(p, q, Some(oldest), events, Lost(drops))
    ensures Head(q).Some? ==> Head(q).value.pts >= oldest
  {
    q, events, drops := p, [], Drops(0, 0);
    DrainedNone(p, Some(oldest));
    while Head(q).Some? && Head(q).value.pts < oldest
      invariant Advances(p, q) && !NeedsSkim(q) && Drained(p, q, Some(oldest), events, Lost(drops))
      decreases Queued(q)
    {
      var r, more, dropped := DropOne(q, oldest);
      DrainedTwice(p, q, r, Some(oldest), events, Lost(drops), more, 1 + dropped);
      q, events, drops := r, events + more, Plus(drops, Drops(dropped, 1));
    }
  }

  predicate IsLate(p: Port, oldest: int)
    requires Bound(p)
  {
    Head(p).Some? && Head(p).value.Data? && Head(p).value.pts < oldest
  }

  /** The head of a port after dropping what is too old; a port that shows no such head is left alone. */
  method DropLate(p: Port, oldest: int) returns (q: Port, events: seq<Packet>, drops: Drops)
    requires Valid(p)
    ensures Advances(p, q) && !NeedsSkim(q) && Drained(p, q, Some(oldest), events, Lost(drops))
    ensures Head(q).Some? ==> Head(q).value.pts >= oldest
    ensures !NeedsSkim(p) && !IsLate(p, oldest) ==> q == p
  {
    var stale;
    q, events, stale := Skim(p, Some(oldest));
    drops := Drops(stale, 0);
    if IsLate(q, oldest) {
      var r, more, dropped := DropWhileLate(q, oldest);
      DrainedTwice(p, q, r, Some(oldest), events, stale, more, Lost(dropped));
      q, events, drops := r, events + more, Plus(drops, dropped);
    }
  }

  // -------------------------------------------------------------------------
  // All ports together

  function Total(ports: seq<Port>): nat {
    if ports == [] then 0 else Total(ports[..|ports| - 1]) + Queued(ports[|ports| - 1])
  }

  /** Every port advanced, none appeared or vanished. */
  ghost predicate AllAdvance(ps: seq<Port>, qs: seq<Port>) {
    |ps| == |qs| && forall i :: 0 <= i < |ps| ==> AdvancesAt(ps, qs, i)
  }

  ghost predicate AdvancesAt(ps: seq<Port>, qs: seq<Port>, i: nat)
    requires i < |ps| == |qs|
  {
    Advances(ps[i], qs[i])
  }

  ghost predicate AllValid(ports: seq<Port>) {
    forall i :: 0 <= i < |ports| ==> ValidAt(ports, i)
  }

  ghost predicate ValidAt(ports: seq<Port>, i: nat)
    requires i < |ports|
  {
    Valid(ports[i])
  }

  lemma {:induction false} AdvanceNone(ps: seq<Port>)
    requires AllValid(ps)
    ensures AllAdvance(ps, ps)
  {
    forall i | 0 <= i < |ps| ensures AdvancesAt(ps, ps, i) {
      assert ValidAt(ps, i);
    }
  }

  lemma {:induction false} AdvanceTrans(ps: seq<Port>, qs: seq<Port>, rs: seq<Port>)
    requires AllAdvance(ps, qs) && AllAdvance(qs, rs)
    ensures AllAdvance(ps, rs)
  {
    forall i | 0 <= i < |ps| ensures AdvancesAt(ps, rs, i) {
      assert AdvancesAt(ps, qs, i) && AdvancesAt(qs, rs, i);
    }
  }

  lemma {:induction false} AdvancedValid(ps: seq<Port>, qs: seq<Port>)
    requires AllAdvance(ps, qs)
    ensures AllValid(qs)
  {
    forall i | 0 <= i < |qs| ensures ValidAt(qs, i) {
      assert AdvancesAt(ps, qs, i);
    }
  }

  lemma {:induction false} AdvancedTotal(ps: seq<Port>, qs: seq<Port>)
    requires AllAdvance(ps, qs)
    ensures Total(qs) <= Total(ps)
  {
    if ps != [] {
      var k := |ps| - 1;
      forall i | 0 <= i < k ensures AdvancesAt(ps[..k], qs[..k], i) {
        assert AdvancesAt(ps, qs, i);
      }
      AdvancedTotal(ps[..k], qs[..k]);
      assert AdvancesAt(ps, qs, k);
    }
  }

  lemma {:induction false} TotalSet(ports: seq<Port>, i: nat, q: Port)
    requires i < |ports|
    ensures Total(ports[i := q]) == Total(ports) - Queued(ports[i]) + Queued(q)
  {
    var k := |ports| - 1;
    if i == k {
      assert ports[i := q][..k] == ports[..k];
    } else {
      TotalSet(ports[..k], i, q);
      assert ports[i := q][..k] == ports[..k][i := q];
    }
  }

  /** One port advances. */
  lemma {:induction false} AdvanceOne(ports: seq<Port>, i: nat, q: Port)
    requires AllValid(ports) && i < |ports| && Advances(ports[i], q)
    ensures AllAdvance(ports, ports[i := q])
  {
    var next := ports[i := q];
    forall j | 0 <= j < |ports| ensures AdvancesAt(ports, next, j) {
      assert ValidAt(ports, j);
    }
  }

  /** What was popped between two views of the ports was popped in passing. */
  ghost predicate AllSkip(ps: seq<Port>, qs: seq<Port>, oldest: Option<int>) {
    |ps| == |qs| && forall i :: 0 <= i < |ps| ==> SkipsAt(ps, qs, oldest, i)
  }

  ghost predicate SkipsAt(ps: seq<Port>, qs: seq<Port>, oldest: Option<int>, i: nat)
    requires i < |ps| == |qs|
  {
    && SkipsOnly(ps[i], qs[i], oldest) && qs[i].edge == ps[i].edge && (ps[i].ended ==> qs[i].ended)
    && (Calm(ps[i], oldest) ==> qs[i] == ps[i])
  }

  /** The head of the port is live data that is not too old, or there is none. */
  predicate Calm(p: Port, oldest: Option<int>) {
    Bound(p) && !NeedsSkim(p) && (oldest.Some? ==> !IsLate(p, oldest.value))
  }

  lemma {:induction false} SkipNone(ps: seq<Port>, oldest: Option<int>)
    ensures AllSkip(ps, ps, oldest)
  {
    forall i | 0 <= i < |ps| ensures SkipsAt(ps, ps, oldest, i) {
    }
  }

  lemma {:induction false} SkipOne(ps: seq<Port>, i: nat, q: Port, oldest: Option<int>)
    requires i < |ps| && SkipsOnly(ps[i], q, oldest) && Advances(ps[i], q) && (Calm(ps[i], oldest) ==> q == ps[i])
    ensures AllSkip(ps, ps[i := q], oldest)
  {
    var qs := ps[i := q];
    forall j | 0 <= j < |ps| ensures SkipsAt(ps, qs, oldest, j) {
    }
  }

  lemma {:induction false} SkipsThrough(p: Port, q: Port, r: Port, oldest: Option<int>)
    requires SkipsOnly(p, q, oldest) && SkipsOnly(q, r, oldest)
    requires r.edge == q.edge && (q.ended ==> r.ended)
    ensures SkipsOnly(p, r, oldest)
  {
    forall k | |p.popped| <= k < |r.popped| && r.popped[k].packet.Data? ensures Skipped(r, r.popped[k], oldest) {
      if k < |q.popped| {
        assert q.popped[k] == r.popped[k];
      }
    }
  }

  lemma {:induction false} SkipTwice(ps: seq<Port>, qs: seq<Port>, rs: seq<Port>, oldest: Option<int>)
    requires AllSkip(ps, qs, oldest) && AllSkip(qs, rs, oldest)
    ensures AllSkip(ps, rs, oldest)
  {
    forall i | 0 <= i < |ps| ensures SkipsAt(ps, rs, oldest, i) {
      assert SkipsAt(ps, qs, oldest, i) && SkipsAt(qs, rs, oldest, i);
      SkipsThrough(ps[i], qs[i], rs[i], oldest);
    }
  }

  // -------------------------------------------------------------------------
  // What the ports show

  /**
   * The packet at the head of a port, if it has one, whether a skim would leave
   * the port alone, and the packet popped last.
   */
  datatype Face = Face(
    front: Option<Packet>, calm: bool, required: bool, ended: bool, taken: Option<Packet>, book: Book)

  function FaceOf(p: Port): Face {
    var taken := if p.popped == [] then None else Some(p.popped[|p.popped| - 1].packet);
    if Bound(p) then Face(Head(p), !NeedsSkim(p), p.required, p.ended, taken, BookOf(p.popped))
    else Face(None, true, p.required, p.ended, taken, BookOf(p.popped))
  }

  function Faces(ports: seq<Port>): (fs: seq<Face>)
    ensures |fs| == |ports|
  {
    if ports == [] then [] else Faces(ports[..|ports| - 1]) + [FaceOf(ports[|ports| - 1])]
  }

  lemma {:induction false} FaceAt(ports: seq<Port>, i: nat)
    requires i < |ports|
    ensures Faces(ports)[i] == FaceOf(ports[i])
  {
    if i < |ports| - 1 {
      FaceAt(ports[..|ports| - 1], i);
    }
  }

  lemma {:induction false} FacesSet(ports: seq<Port>, i: nat, q: Port)
    requires i < |ports|
    ensures Faces(ports[i := q]) == Faces(ports)[i := FaceOf(q)]
  {
    var next := ports[i := q];
    forall j | 0 <= j < |ports| ensures Faces(next)[j] == Faces(ports)[i := FaceOf(q)][j] {
      FaceAt(ports, j);
      FaceAt(next, j);
    }
  }

  predicate ShowsPts(f: Option<Packet>, pts: int) {
    f.Some? && f.value.Data? && f.value.pts == pts
  }

  function Tag(i: nat, events: seq<Packet>): seq<Item> {
    if events == [] then [] else Tag(i, events[..|events| - 1]) + [Item(i, events[|events| - 1])]
  }

  /** The packets of one port among the items. */
  function At(items: seq<Item>, i: nat): seq<Packet> {
    if items == [] then []
    else At(items[..|items| - 1], i) + if items[|items| - 1].port == i then [items[|items| - 1].packet] else []
  }

  lemma {:induction false} AtAppend(xs: seq<Item>, ys: seq<Item>, i: nat)
    ensures At(xs + ys, i) == At(xs, i) + At(ys, i)
  {
    if ys == [] {
      assert xs + ys == xs;
    } else {
      var k := |ys| - 1;
      assert (xs + ys)[..|xs + ys| - 1] == xs + ys[..k];
      AtAppend(xs, ys[..k], i);
    }
  }

  lemma {:induction false} AtTag(i: nat, events: seq<Packet>, j: nat)
    ensures At(Tag(i, events), j) == if i == j then events else []
  {
    if events != [] {
      var k := |events| - 1;
      AtTag(i, events[..k], j);
      AtAppend(Tag(i, events[..k]), [Item(i, events[k])], j);
      assert [Item(i, events[k])][..0] == [];
      assert events[..k] + [events[k]] == events;
    }
  }

  function DataOf(fs: seq<Face>): nat {
    if fs == [] then 0 else DataOf(fs[..|fs| - 1]) + fs[|fs| - 1].book.data
  }

  lemma {:induction false} DataSet(fs: seq<Face>, i: nat, f: Face)
    requires i < |fs|
    ensures DataOf(fs[i := f]) == DataOf(fs) - fs[i].book.data + f.book.data
  {
    var k := |fs| - 1;
    if i < k {
      DataSet(fs[..k], i, f);
      assert fs[i := f][..k] == fs[..k][i := f];
    } else {
      assert fs[i := f][..k] == fs[..k];
    }
  }

  /**
   * Between two views of the ports, every event popped is among the items, on
   * its port and in order, and so many data packets were popped.
   */
  ghost predicate Accounted(fs: seq<Face>, gs: seq<Face>, events: seq<Item>, data: nat) {
    && |fs| == |gs| && DataOf(gs) == DataOf(fs) + data
    && forall i :: 0 <= i < |fs| ==> AccountedFor(fs, gs, events, i)
  }

  ghost predicate AccountedFor(fs: seq<Face>, gs: seq<Face>, events: seq<Item>, i: nat)
    requires i < |fs| == |gs|
  {
    AccountedAt(fs[i], gs[i], At(events, i))
  }

  ghost predicate AccountedAt(f: Face, g: Face, events: seq<Packet>) {
    g.required == f.required && (f.ended ==> g.ended) && g.book.events == f.book.events + events
  }

  lemma {:induction false} AccountedNone(fs: seq<Face>)
    ensures Accounted(fs, fs, [], 0)
  {
    forall i | 0 <= i < |fs| ensures AccountedFor(fs, fs, [], i) {
      assert fs[i].book.events + [] == fs[i].book.events;
    }
  }

  lemma {:induction false} AccountedAtTwice(f: Face, g: Face, h: Face, xs: seq<Packet>, ys: seq<Packet>)
    requires AccountedAt(f, g, xs) && AccountedAt(g, h, ys)
    ensures AccountedAt(f, h, xs + ys)
  {
    assert f.book.events + xs + ys == f.book.events + (xs + ys);
  }

  lemma {:induction false} AccountedTwice(fs: seq<Face>, gs: seq<Face>, hs: seq<Face>, xs: seq<Item>, m: nat,
        ys: seq<Item>, n: nat)
    requires Accounted(fs, gs, xs, m) && Accounted(gs, hs, ys, n)
    ensures Accounted(fs, hs, xs + ys, m + n)
  {
    forall i | 0 <= i < |fs| ensures AccountedFor(fs, hs, xs + ys, i) {
      AtAppend(xs, ys, i);
      assert AccountedFor(fs, gs, xs, i) && AccountedFor(gs, hs, ys, i);
      AccountedAtTwice(fs[i], gs[i], hs[i], At(xs, i), At(ys, i));
    }
  }

  lemma {:induction false} AccountedOne(fs: seq<Face>, i: nat, f: Face, events: seq<Packet>, data: nat)
    requires i < |fs| && f.book == Added(fs[i].book, data, events)
    requires f.required == fs[i].required && (fs[i].ended ==> f.ended)
    ensures Accounted(fs, fs[i := f], Tag(i, events), data)
  {
    DataSet(fs, i, f);
    var gs, items := fs[i := f], Tag(i, events);
    forall j | 0 <= j < |fs| ensures AccountedFor(fs, gs, items, j) {
      AtTag(i, events, j);
      assert j != i ==> fs[j].book.events + [] == fs[j].book.events;
    }
  }

  /** ports have become qs by pops that account for the events and the data. */
  ghost predicate Moved(ports: seq<Port>, qs: seq<Port>, events: seq<Item>, data: nat) {
    && AllAdvance(ports, qs)
    && Accounted(Faces(ports), Faces(qs), events, data)
  }

  lemma {:induction false} MovedNone(ports: seq<Port>)
    requires AllValid(ports)
    ensures Moved(ports, ports, [], 0)
  {
    AdvanceNone(ports);
    AccountedNone(Faces(ports));
  }

  lemma {:induction false} MovedTwice(ports: seq<Port>, qs: seq<Port>, rs: seq<Port>, xs: seq<Item>, m: nat,
        ys: seq<Item>, n: nat)
    requires Moved(ports, qs, xs, m) && Moved(qs, rs, ys, n)
    ensures Moved(ports, rs, xs + ys, m + n)
  {
    AdvanceTrans(ports, qs, rs);
    AccountedTwice(Faces(ports), Faces(qs), Faces(rs), xs, m, ys, n);
  }

  lemma {:induction false} MovedQuietly(ports: seq<Port>, qs: seq<Port>, rs: seq<Port>, xs: seq<Item>, m: nat, n: nat)
    requires Moved(ports, qs, xs, m) && Moved(qs, rs, [], n)
    ensures Moved(ports, rs, xs, m + n)
  {
    MovedTwice(ports, qs, rs, xs, m, [], n);
    assert xs + [] == xs;
  }

  /** One port moves, the others stay as they are. */
  lemma {:induction false} MovedOne(ports: seq<Port>, i: nat, q: Port, events: seq<Packet>, data: nat)
    requires AllValid(ports) && i < |ports| && Advances(ports[i], q)
    requires BookOf(q.popped) == Added(BookOf(ports[i].popped), data, events)
    ensures Moved(ports, ports[i := q], Tag(i, events), data)
    ensures Faces(ports[i := q]) == Faces(ports)[i := FaceOf(q)]
    ensures Total(ports[i := q]) == Total(ports) - Queued(ports[i]) + Queued(q)
  {
    AdvanceOne(ports, i, q);
    TotalSet(ports, i, q);
    FaceAt(ports, i);
    FacesSet(ports, i, q);
    AccountedOne(Faces(ports), i, FaceOf(q), events, data);
  }

  /** SkimHead on the i-th port. */
  method SkimAt(ports: seq<Port>, i: nat) returns (qs: seq<Port>, front: Option<Packet>, events: seq<Item>, stale: nat)
    requires AllValid(ports) && i < |ports|
    ensures Moved(ports, qs, events, stale) && |qs| == |ports| && AllSkip(ports, qs, None)
    ensures Faces(qs) == Faces(ports)[i := Faces(qs)[i]]
    ensures Faces(qs)[i].calm && Faces(qs)[i].front == front && (front.Some? ==> front.value.Data?)
  {
    assert ValidAt(ports, i);
    var q, more;
    q, more, stale := Skim(ports[i], None);
    MovedOne(ports, i, q, more, stale);
    SkipOne(ports, i, q, None);
    qs, front, events := ports[i := q], FaceOf(q).front, Tag(i, more);
  }

  ghost predicate TakesHead(p: Port, q: Port) {
    Bound(p) && Head(p).Some? && q == TakeHead(p)
  }

  /** Take on the i-th port, which shows data. */
  method TakeAt(ports: seq<Port>, i: nat) returns (qs: seq<Port>, p: Packet)
    requires AllValid(ports) && i < |ports| && Faces(ports)[i].front.Some? && Faces(ports)[i].front.value.Data?
    ensures Moved(ports, qs, [], 1) && Total(qs) < Total(ports) && |qs| == |ports|
    ensures Faces(ports)[i].front == Some(p) && Faces(qs) == Faces(ports)[i := Faces(qs)[i]]
    ensures Faces(qs)[i].taken == Some(p) && qs == ports[i := qs[i]] && TakesHead(ports[i], qs[i])
  {
    assert ValidAt(ports, i);
    FaceAt(ports, i);
    var q := ports[i];
    TakeValid(q);
    TakeQueued(q);
    TakeBook(q);
    AddedTwice(BookOf(q.popped), 0, [], 0, []);
    AddedNoted(BookOf(q.popped), 0, [], Head(q).value);
    MovedOne(ports, i, TakeHead(q), [], 1);
    qs, p := ports[i := TakeHead(q)], Head(q).value;
  }

  // -------------------------------------------------------------------------
  // The reference packet

  /**
   * Among the first n ports, all required ones are skimmed and none shows a
   * packet before the target; the reference is the first that shows the target.
   */
  ghost predicate Earliest(fs: seq<Face>, n: nat, ref: Option<nat>, target: int) {
    && n <= |fs|
    && (forall j :: 0 <= j < n && fs[j].required ==> fs[j].calm && NotBefore(fs[j].front, ref, target))
    && (ref.Some? ==> ref.value < n && fs[ref.value].required && ShowsPts(fs[ref.value].front, target))
    && (ref.Some? ==> forall j :: 0 <= j < ref.value && fs[j].required ==> !ShowsPts(fs[j].front, target))
  }

  predicate NotBefore(front: Option<Packet>, ref: Option<nat>, target: int) {
    front.Some? ==> ref.Some? && front.value.Data? && target <= front.value.pts
  }

  /** A skimmed required port joins; its head becomes the reference if it is earlier. */
  lemma {:induction false} EarliestMore(fs: seq<Face>, n: nat, ref: Option<nat>, target: int, f: Face)
    requires Earliest(fs, n, ref, target) && n < |fs| && f.calm && f.required && (f.front.Some? ==> f.front.value.Data?)
    ensures IsEarlier(f.front, ref, target) ==> Earliest(fs[n := f], n + 1, Some(n), f.front.value.pts)
    ensures !IsEarlier(f.front, ref, target) ==> Earliest(fs[n := f], n + 1, ref, target)
  {
  }

  lemma {:induction false} EarliestSkip(fs: seq<Face>, n: nat, ref: Option<nat>, target: int)
    requires Earliest(fs, n, ref, target) && n < |fs| && !fs[n].required
    ensures Earliest(fs, n + 1, ref, target)
  {
  }

  predicate IsEarlier(front: Option<Packet>, ref: Option<nat>, target: int) {
    front.Some? && front.value.Data? && (ref.None? || front.value.pts < target)
  }

  /** SkimHead on one more port. */
  method SkimNext(ghost ports: seq<Port>, qs: seq<Port>, i: nat, events: seq<Item>, stale: nat)
    returns (rs: seq<Port>, front: Option<Packet>, more: seq<Item>, dropped: nat)
    requires Moved(ports, qs, events, stale) && i < |qs| == |ports| && AllSkip(ports, qs, None)
    ensures Moved(ports, rs, more, dropped) && |rs| == |ports| && AllSkip(ports, rs, None)
    ensures Faces(rs) == Faces(qs)[i := Faces(rs)[i]] && Faces(rs)[i].required == Faces(qs)[i].required
    ensures Faces(rs)[i].calm && Faces(rs)[i].front == front && (front.Some? ==> front.value.Data?)
  {
    AdvancedValid(ports, qs);
    rs, front, more, dropped := SkimAt(qs, i);
    assert AccountedFor(Faces(qs), Faces(rs), more, i);
    SkipTwice(ports, qs, rs, None);
    MovedTwice(ports, qs, rs, events, stale, more, dropped);
    more, dropped := events + more, stale + dropped;
  }

  /** The first n ports have been looked at for the reference. */
  ghost predicate Searched(ports: seq<Port>, qs: seq<Port>, n: nat, ref: Option<nat>, target: int, events: seq<Item>,
                           stale: nat) {
    && Moved(ports, qs, events, stale) && |qs| == |ports| && AllSkip(ports, qs, None)
    && Earliest(Faces(qs), n, ref, target)
  }

  method SearchNext(ghost ports: seq<Port>, qs: seq<Port>, i: nat, ref: Option<nat>, target: int, events: seq<Item>,
                    stale: nat)
    returns (rs: seq<Port>, best: Option<nat>, pts: int, more: seq<Item>, dropped: nat)
    requires Searched(ports, qs, i, ref, target, events, stale) && i < |qs|
    ensures Searched(ports, rs, i + 1, best, pts, more, dropped)
  {
    rs, best, pts, more, dropped := qs, ref, target, events, stale;
    FaceAt(qs, i);
    if qs[i].required {
      var front;
      rs, front, more, dropped := SkimNext(ports, qs, i, events, stale);
      EarliestMore(Faces(qs), i, ref, target, Faces(rs)[i]);
      if IsEarlier(front, ref, target) {
        best, pts := Some(i), front.value.pts;
      }
    } else {
      EarliestSkip(Faces(qs), i, ref, target);
    }
  }

  /** The earliest head among the required ports; every required port gets skimmed. */
  method EarliestRequired(ports: seq<Port>)
    returns (qs: seq<Port>, ref: Option<nat>, target: int, events: seq<Item>, stale: nat)
    requires AllValid(ports)
    ensures Moved(ports, qs, events, stale) && |qs| == |ports| && Earliest(Faces(qs), |qs|, ref, target)
    ensures AllSkip(ports, qs, None)
  {
    qs, ref, target, events, stale := ports, None, 0, [], 0;
    MovedNone(ports);
    SkipNone(ports, None);
    for i := 0 to |ports|
      invariant Searched(ports, qs, i, ref, target, events, stale)
    {
      qs, ref, target, events, stale := SearchNext(ports, qs, i, ref, target, events, stale);
    }
  }

  // -------------------------------------------------------------------------
  // The other ports

  /** How a port other than the reference stands to the target. */
  datatype Standing = Missing | Within | Ahead

  predicate Stands(f: Option<Packet>, target: int, window: int, st: Standing) {
    if f.None? then st.Missing?
    else f.value.Data? && target - window <= f.value.pts && st == if f.value.pts <= target + window then Within else Ahead
  }

  /** A port that shows nothing to skim and nothing too old. */
  predicate Settled(f: Face, oldest: int) {
    f.calm && (f.front.Some? ==> f.front.value.Data? && oldest <= f.front.value.pts)
  }

  /** Drops what is too old on a port and sees where it stands. */
  method Stand(p: Port, target: int, window: int) returns (q: Port, st: Standing, events: seq<Packet>, drops: Drops)
    requires Valid(p)
    ensures Advances(p, q) && BookOf(q.popped) == Added(BookOf(p.popped), Lost(drops), events)
    ensures Stands(FaceOf(q).front, target, window, st) && SkipsOnly(p, q, Some(target - window))
    ensures Calm(p, Some(target - window)) ==> q == p
  {
    q, events, drops := DropLate(p, target - window);
    st := StandingOf(q, target, window);
  }

  lemma {:induction false} SettledPort(p: Port, oldest: int)
    requires Bound(p) && Settled(FaceOf(p), oldest)
    ensures Calm(p, Some(oldest))
  {
  }

  /** Where a port stands that has nothing to skim and nothing too old. */
  function StandingOf(q: Port, target: int, window: int): (st: Standing)
    requires Bound(q) && !NeedsSkim(q) && (Head(q).Some? ==> target - window <= Head(q).value.pts)
    ensures Stands(FaceOf(q).front, target, window, st)
  {
    var f := Head(q);
    if f.None? then Missing else if f.value.pts <= target + window then Within else Ahead
  }

  method Classify(ports: seq<Port>, i: nat, target: int, window: int)
    returns (qs: seq<Port>, st: Standing, events: seq<Item>, drops: Drops)
    requires AllValid(ports) && i < |ports|
    ensures Moved(ports, qs, events, Lost(drops)) && |qs| == |ports| && Faces(qs) == Faces(ports)[i := Faces(qs)[i]]
    ensures Stands(Faces(qs)[i].front, target, window, st) && AllSkip(ports, qs, Some(target - window))
    ensures Settled(Faces(ports)[i], target - window) ==> Faces(qs) == Faces(ports)
  {
    assert ValidAt(ports, i);
    FaceAt(ports, i);
    var q, more;
    q, st, more, drops := Stand(ports[i], target, window);
    if Settled(Faces(ports)[i], target - window) {
      SettledPort(ports[i], target - window);
      assert ports[i := q] == ports;
    }
    MovedOne(ports, i, q, more, Lost(drops));
    SkipOne(ports, i, q, Some(target - window));
    qs, events := ports[i := q], Tag(i, more);
  }

  ghost predicate AllStand(fs: seq<Face>, ref: nat, target: int, window: int, sts: seq<Standing>)
    requires |sts| <= |fs|
  {
    forall j :: 0 <= j < |sts| && j != ref ==> Stands(fs[j].front, target, window, sts[j])
  }

  /** The reference and the settled ports show what they showed. */
  ghost predicate SettledStay(fs: seq<Face>, gs: seq<Face>, ref: nat, oldest: int) {
    |fs| == |gs| && forall j :: 0 <= j < |fs| && (j == ref || Settled(fs[j], oldest)) ==> gs[j] == fs[j]
  }

  method ClassifyNext(ghost ports: seq<Port>, qs: seq<Port>, i: nat, target: int, window: int, events: seq<Item>,
        drops: Drops)
    returns (rs: seq<Port>, st: Standing, more: seq<Item>, dropped: Drops)
    requires Moved(ports, qs, events, Lost(drops)) && i < |qs| == |ports| && AllSkip(ports, qs, Some(target - window))
    ensures Moved(ports, rs, more, Lost(dropped)) && |rs| == |ports| && Faces(rs) == Faces(qs)[i := Faces(rs)[i]]
    ensures Stands(Faces(rs)[i].front, target, window, st) && AllSkip(ports, rs, Some(target - window))
    ensures Settled(Faces(qs)[i], target - window) ==> Faces(rs) == Faces(qs)
  {
    AdvancedValid(ports, qs);
    rs, st, more, dropped := Classify(qs, i, target, window);
    SkipTwice(ports, qs, rs, Some(target - window));
    MovedTwice(ports, qs, rs, events, Lost(drops), more, Lost(dropped));
    more, dropped := events + more, Plus(drops, dropped);
  }

  /** The first n ports other than the reference have been classified. */
  ghost predicate Classified(fs: seq<Face>, gs: seq<Face>, ref: nat, target: int, window: int, sts: seq<Standing>) {
    && |sts| <= |fs| == |gs|
    && AllStand(gs, ref, target, window, sts) && SettledStay(fs, gs, ref, target - window)
    && forall j :: |sts| <= j < |fs| ==> gs[j] == fs[j]
  }

  lemma {:induction false} ClassifiedMore(fs: seq<Face>, gs: seq<Face>, hs: seq<Face>, ref: nat, target: int,
        window: int, sts: seq<Standing>, st: Standing)
    requires Classified(fs, gs, ref, target, window, sts) && |sts| < |fs| && |hs| == |gs|
    requires hs == if |sts| == ref then gs else gs[|sts| := hs[|sts|]]
    requires |sts| != ref ==> Stands(hs[|sts|].front, target, window, st)
    requires |sts| != ref && Settled(gs[|sts|], target - window) ==> hs == gs
    ensures Classified(fs, hs, ref, target, window, sts + [st])
  {
  }

  /** The same for every port but the reference. */
  method ClassifyAll(ports: seq<Port>, ref: nat, target: int, window: int)
    returns (qs: seq<Port>, sts: seq<Standing>, events: seq<Item>, drops: Drops)
    requires AllValid(ports) && ref < |ports|
    ensures Moved(ports, qs, events, Lost(drops)) && |qs| == |ports| == |sts|
    ensures Classified(Faces(ports), Faces(qs), ref, target, window, sts) && AllSkip(ports, qs, Some(target - window))
  {
    qs, sts, events, drops := ports, [], [], Drops(0, 0);
    MovedNone(ports);
    SkipNone(ports, Some(target - window));
    for i := 0 to |ports|
      invariant Moved(ports, qs, events, Lost(drops)) && |qs| == |ports| && |sts| == i
      invariant Classified(Faces(ports), Faces(qs), ref, target, window, sts)
      invariant AllSkip(ports, qs, Some(target - window))
    {
      ghost var before := Faces(qs);
      var st := Missing;
      if i != ref {
        qs, st, events, drops := ClassifyNext(ports, qs, i, target, window, events, drops);
      }
      ClassifiedMore(Faces(ports), before, Faces(qs), ref, target, window, sts, st);
      sts := sts + [st];
    }
  }

  /** A required port other than the reference that has to be waited for. */
  predicate Waits(f: Face, st: Standing, i: nat, ref: nat) {
    i != ref && st.Missing? && f.required && !f.ended
  }

  /** A required port that has moved past the reference packet. */
  predicate IsPast(f: Face, st: Standing, i: nat, ref: nat) {
    i != ref && st.Ahead? && f.required
  }

  method Verdict(fs: seq<Face>, sts: seq<Standing>, ref: nat) returns (wait: bool, late: bool)
    requires |fs| == |sts|
    ensures wait <==> SomeWaits(fs, sts, ref)
    ensures late <==> SomePast(fs, sts, ref)
  {
    wait, late := false, false;
    for i := 0 to |fs|
      invariant wait <==> exists j :: 0 <= j < i && Waits(fs[j], sts[j], j, ref)
      invariant late <==> exists j :: 0 <= j < i && IsPast(fs[j], sts[j], j, ref)
    {
      wait := wait || Waits(fs[i], sts[i], i, ref);
      late := late || IsPast(fs[i], sts[i], i, ref);
    }
  }

  // -------------------------------------------------------------------------
  // Delivery

  /** The packet each port contributes, if any: the head of the reference and of every port within the window. */
  function Picks(fs: seq<Face>, sts: seq<Standing>, ref: nat): (picks: seq<Option<Packet>>)
    requires |fs| == |sts|
    ensures |picks| == |fs|
    ensures forall i :: 0 <= i < |fs| ==> picks[i] == if i == ref || sts[i].Within? then fs[i].front else None
  {
    if fs == [] then []
    else
      var k := |fs| - 1;
      Picks(fs[..k], sts[..k], ref) + [if k == ref || sts[k].Within? then fs[k].front else None]
  }

  /** The picks of the first n ports, with their ports. */
  function EntriesOf(picks: seq<Option<Packet>>, n: nat): seq<Item>
    requires n <= |picks|
  {
    if n == 0 then []
    else if picks[n - 1].None? then EntriesOf(picks, n - 1)
    else EntriesOf(picks, n - 1) + [Item(n - 1, picks[n - 1].value)]
  }

  ghost predicate Contributes(entries: seq<Item>, i: nat) {
    exists k :: 0 <= k < |entries| && entries[k].port == i
  }

  /** One entry per pick, in declaration order. */
  ghost predicate Delivers(entries: seq<Item>, picks: seq<Option<Packet>>, n: nat)
    requires n <= |picks|
  {
    && (forall k :: 0 <= k < |entries| ==> entries[k].port < n && picks[entries[k].port] == Some(entries[k].packet))
    && (forall k, l :: 0 <= k < l < |entries| ==> entries[k].port < entries[l].port)
    && (forall i :: 0 <= i < n && picks[i].Some? ==> Contributes(entries, i))
  }

  lemma {:induction false} DeliversMore(entries: seq<Item>, picks: seq<Option<Packet>>, n: nat)
    requires n < |picks| && picks[n].Some? && Delivers(entries, picks, n)
    ensures Delivers(entries + [Item(n, picks[n].value)], picks, n + 1)
  {
    var more := entries + [Item(n, picks[n].value)];
    forall i | 0 <= i < n + 1 && picks[i].Some? ensures Contributes(more, i) {
      if i < n {
        var k :| 0 <= k < |entries| && entries[k].port == i;
        assert more[k].port == i;
      } else {
        assert more[|entries|].port == i;
      }
    }
  }

  lemma {:induction false} EntriesDeliver(picks: seq<Option<Packet>>, n: nat)
    requires n <= |picks|
    ensures Delivers(EntriesOf(picks, n), picks, n)
  {
    if n > 0 {
      EntriesDeliver(picks, n - 1);
      if picks[n - 1].Some? {
        DeliversMore(EntriesOf(picks, n - 1), picks, n - 1);
      }
    }
  }

  /** The picks are data at the heads of their ports. */
  ghost predicate AtHeads(fs: seq<Face>, picks: seq<Option<Packet>>) {
    |fs| == |picks| && forall i :: 0 <= i < |fs| && picks[i].Some? ==> fs[i].front == picks[i] && picks[i].value.Data?
  }

  /** Picks have been taken off the first n ports; ports without a pick, and the rest, show what they showed. */
  ghost predicate TakenUpTo(fs: seq<Face>, gs: seq<Face>, picks: seq<Option<Packet>>, n: nat) {
    |gs| == |fs| == |picks| &&
    forall i :: 0 <= i < |fs| ==> if i >= n || picks[i].None? then gs[i] == fs[i] else gs[i].taken == picks[i]
  }

  method TakeNext(ghost ports: seq<Port>, qs: seq<Port>, i: nat, ghost events: seq<Item>, ghost data: nat)
    returns (rs: seq<Port>, p: Packet)
    requires Moved(ports, qs, events, data) && i < |qs| == |ports|
    requires Faces(qs)[i].front.Some? && Faces(qs)[i].front.value.Data?
    ensures Moved(ports, rs, events, data + 1) && |rs| == |ports| && Total(rs) < Total(qs)
    ensures Faces(qs)[i].front == Some(p) == Faces(rs)[i].taken && Faces(rs) == Faces(qs)[i := Faces(rs)[i]]
    ensures rs == qs[i := rs[i]] && TakesHead(qs[i], rs[i])
  {
    AdvancedValid(ports, qs);
    rs, p := TakeAt(qs, i);
    MovedQuietly(ports, qs, rs, events, data, 1);
  }

  /** What one more turn of the delivery loop leads to. */
  lemma {:induction false} TakenMore(fs: seq<Face>, gs: seq<Face>, hs: seq<Face>, picks: seq<Option<Packet>>, n: nat)
    requires AtHeads(fs, picks) && n < |fs| && TakenUpTo(fs, gs, picks, n) && |hs| == |gs|
    requires hs == if picks[n].Some? then gs[n := hs[n]] else gs
    requires picks[n].Some? ==> hs[n].taken == picks[n]
    ensures TakenUpTo(fs, hs, picks, n + 1)
  {
  }

  lemma {:induction false} NextPick(fs: seq<Face>, gs: seq<Face>, picks: seq<Option<Packet>>, n: nat)
    requires AtHeads(fs, picks) && n < |fs| && TakenUpTo(fs, gs, picks, n)
    ensures picks[n].Some? ==> gs[n].front == picks[n] && picks[n].value.Data?
    ensures picks[n].Some? ==> EntriesOf(picks, n + 1) == EntriesOf(picks, n) + [Item(n, picks[n].value)]
    ensures picks[n].None? ==> EntriesOf(picks, n + 1) == EntriesOf(picks, n)
  {
  }

  /** The heads of the named ports were taken, and nothing else happened. */
  ghost predicate HeadsTaken(ps: seq<Port>, qs: seq<Port>, takes: set<nat>) {
    |ps| == |qs| && forall i :: 0 <= i < |ps| ==> TakenAt(ps, qs, takes, i)
  }

  ghost predicate TakenAt(ps: seq<Port>, qs: seq<Port>, takes: set<nat>, i: nat)
    requires i < |ps| == |qs|
  {
    if i in takes then TakesHead(ps[i], qs[i]) else qs[i] == ps[i]
  }

  ghost function PortsOf(entries: seq<Item>): set<nat> {
    set k | 0 <= k < |entries| :: entries[k].port
  }

  lemma {:induction false} PortsMore(entries: seq<Item>, entry: Item)
    ensures PortsOf(entries + [entry]) == PortsOf(entries) + {entry.port}
  {
    var more := entries + [entry];
    forall k | 0 <= k < |entries| ensures entries[k].port in PortsOf(more) {
      assert more[k] == entries[k];
    }
    assert more[|entries|] == entry;
  }

  lemma {:induction false} HeadsNone(ps: seq<Port>)
    ensures HeadsTaken(ps, ps, {}) && PortsOf([]) == {}
  {
    forall i | 0 <= i < |ps| ensures TakenAt(ps, ps, {}, i) {
    }
  }

  lemma {:induction false} HeadsMore(ps: seq<Port>, qs: seq<Port>, rs: seq<Port>, takes: set<nat>, i: nat)
    requires HeadsTaken(ps, qs, takes) && i < |qs| && i !in takes && |rs| == |qs|
    requires rs == qs[i := rs[i]] && TakesHead(qs[i], rs[i])
    ensures HeadsTaken(ps, rs, takes + {i})
  {
    forall j | 0 <= j < |ps| ensures TakenAt(ps, rs, takes + {i}, j) {
      assert TakenAt(ps, qs, takes, j);
    }
  }

  lemma {:induction false} EntriesBelow(picks: seq<Option<Packet>>, n: nat)
    requires n <= |picks|
    ensures n !in PortsOf(EntriesOf(picks, n))
  {
    EntriesDeliver(picks, n);
  }

  /** One turn of the delivery loop. */
  method TakeTurn(ghost ports: seq<Port>, ghost before: seq<Port>, qs: seq<Port>, i: nat,
                  picks: seq<Option<Packet>>, entries: seq<Item>, ghost events: seq<Item>, ghost data: nat)
    returns (rs: seq<Port>, more: seq<Item>)
    requires Moved(ports, qs, events, data + |entries|) && i < |qs| == |ports| && AtHeads(Faces(before), picks)
    requires TakenUpTo(Faces(before), Faces(qs), picks, i) && entries == EntriesOf(picks, i)
    requires HeadsTaken(before, qs, PortsOf(entries))
    ensures Moved(ports, rs, events, data + |more|) && |rs| == |ports|
    ensures TakenUpTo(Faces(before), Faces(rs), picks, i + 1) && more == EntriesOf(picks, i + 1)
    ensures HeadsTaken(before, rs, PortsOf(more))
  {
    rs, more := qs, entries;
    NextPick(Faces(before), Faces(qs), picks, i);
    if picks[i].Some? {
      var p;
      rs, p := TakeNext(ports, qs, i, events, data + |entries|);
      EntriesBelow(picks, i);
      HeadsMore(before, qs, rs, PortsOf(entries), i);
      PortsMore(entries, Item(i, p));
      more := entries + [Item(i, p)];
    }
    TakenMore(Faces(before), Faces(qs), Faces(rs), picks, i);
  }

  /** Takes every pick off the head of its port. */
  method TakeAll(ghost ports: seq<Port>, before: seq<Port>, picks: seq<Option<Packet>>, ghost events: seq<Item>,
        ghost data: nat)
    returns (qs: seq<Port>, entries: seq<Item>)
    requires Moved(ports, before, events, data) && |before| == |ports| && AtHeads(Faces(before), picks)
    ensures Moved(ports, qs, events, data + |entries|) && |qs| == |ports|
    ensures TakenUpTo(Faces(before), Faces(qs), picks, |picks|) && entries == EntriesOf(picks, |picks|)
    ensures HeadsTaken(before, qs, PortsOf(entries))
  {
    qs, entries := before, [];
    HeadsNone(before);
    for i := 0 to |before|
      invariant Moved(ports, qs, events, data + |entries|) && |qs| == |ports|
      invariant TakenUpTo(Faces(before), Faces(qs), picks, i) && entries == EntriesOf(picks, i)
      invariant HeadsTaken(before, qs, PortsOf(entries))
    {
      qs, entries := TakeTurn(ports, before, qs, i, picks, entries, events, data);
    }
  }

  // -------------------------------------------------------------------------
  // One turn of the retry loop

  datatype Outcome = Nothing | Again | Serve(entries: seq<Item>, ref: nat, target: int)

  function Served(o: Outcome): nat {
    if o.Serve? then |o.entries| else 0
  }

  predicate InWindow(entry: Item, ref: nat, target: int, window: int) {
    entry.packet.Data? &&
    if entry.port == ref then entry.packet.pts == target
    else target - window <= entry.packet.pts <= target + window
  }

  /** The port shows a packet later than the window. */
  predicate Beyond(f: Face, latest: int) {
    f.front.Some? && f.front.value.Data? && latest < f.front.value.pts
  }

  /** The port is required, live, and has nothing to show. */
  predicate Starved(f: Face) {
    f.required && !f.ended && f.front.None?
  }

  /**
   * What the caller of an aligned acquire may rely on: packets just popped from
   * their ports and within the window of the reference, one per port at most and
   * in port order; every required port served unless it has ended or, with a
   * fixed reference, is ahead of it. Without a fixed reference no required packet
   * is earlier than the reference.
   */
  ghost predicate GoodBatch(fs: seq<Face>, window: int, fixed: Option<nat>, o: Outcome)
    requires o.Serve?
  {
    && o.ref < |fs| && Contributes(o.entries, o.ref) && (fixed.Some? ==> o.ref == fixed.value)
    && (forall k :: 0 <= k < |o.entries| ==> o.entries[k].port < |fs| && InWindow(o.entries[k], o.ref, o.target, window))
    && (forall k :: 0 <= k < |o.entries| ==> IsPopped(fs, o.entries[k]))
    && (forall k, l :: 0 <= k < l < |o.entries| ==> o.entries[k].port < o.entries[l].port)
    && (forall i :: 0 <= i < |fs| && fs[i].required ==> IsServed(fs[i], i, window, fixed, o))
    && (fixed.None? ==> fs[o.ref].required && NoneEarlier(fs, o))
  }

  /** The packet is the one its port popped last. */
  predicate IsPopped(fs: seq<Face>, entry: Item) {
    entry.port < |fs| && fs[entry.port].taken == Some(entry.packet)
  }

  ghost predicate IsServed(f: Face, i: nat, window: int, fixed: Option<nat>, o: Outcome)
    requires o.Serve?
  {
    Contributes(o.entries, i) || f.ended || (fixed.Some? && Beyond(f, o.target + window))
  }

  ghost predicate NoneEarlier(fs: seq<Face>, o: Outcome)
    requires o.Serve?
  {
    forall k :: 0 <= k < |o.entries| ==> NotEarlier(fs, o.entries[k], o.target)
  }

  predicate NotEarlier(fs: seq<Face>, entry: Item, target: int) {
    entry.port < |fs| && fs[entry.port].required ==> entry.packet.Data? && target <= entry.packet.pts
  }

  /** The picks of one turn: fs are the ports as the reference was found, gs as they were classified. */
  ghost predicate Turn(fs: seq<Face>, gs: seq<Face>, ref: nat, target: int, window: int, sts: seq<Standing>) {
    && Classified(fs, gs, ref, target, window, sts) && |sts| == |fs|
    && ref < |fs| && ShowsPts(fs[ref].front, target)
  }

  lemma {:induction false} PickInWindow(fs: seq<Face>, gs: seq<Face>, ref: nat, target: int, window: int,
        sts: seq<Standing>, i: nat)
    requires Turn(fs, gs, ref, target, window, sts) && i < |fs| && Picks(gs, sts, ref)[i].Some?
    ensures gs[i].front == Picks(gs, sts, ref)[i] && InWindow(Item(i, gs[i].front.value), ref, target, window)
  {
    assert i == ref ==> gs[i] == fs[i];
    assert i != ref ==> Stands(gs[i].front, target, window, sts[i]);
  }

  lemma {:induction false} PicksAtHeads(fs: seq<Face>, gs: seq<Face>, ref: nat, target: int, window: int,
        sts: seq<Standing>)
    requires Turn(fs, gs, ref, target, window, sts)
    ensures AtHeads(gs, Picks(gs, sts, ref))
  {
    forall i | 0 <= i < |gs| && Picks(gs, sts, ref)[i].Some?
      ensures gs[i].front == Picks(gs, sts, ref)[i] && Picks(gs, sts, ref)[i].value.Data?
    {
      PickInWindow(fs, gs, ref, target, window, sts, i);
    }
  }

  /** A required port's pick is not earlier than the earliest required head. */
  lemma {:induction false} PickNotEarlier(fs: seq<Face>, gs: seq<Face>, ref: nat, target: int, window: int,
        sts: seq<Standing>, i: nat)
    requires Turn(fs, gs, ref, target, window, sts) && Earliest(fs, |fs|, Some(ref), target)
    requires i < |fs| && fs[i].required && Picks(gs, sts, ref)[i].Some?
    ensures gs[i].front.value.Data? && target <= gs[i].front.value.pts
  {
    PickInWindow(fs, gs, ref, target, window, sts, i);
    assert fs[i].calm && NotBefore(fs[i].front, Some(ref), target);
    if i != ref {
      assert Settled(fs[i], target - window);
      assert gs[i] == fs[i];
    }
  }

  lemma {:induction false} RequiredServed(fs: seq<Face>, gs: seq<Face>, hs: seq<Face>, window: int,
        sts: seq<Standing>, fixed: Option<nat>, o: Outcome, i: nat)
    requires o.Serve? && Turn(fs, gs, o.ref, o.target, window, sts) && i < |fs| && gs[i].required
    requires !Waits(gs[i], sts[i], i, o.ref) && (fixed.None? ==> !IsPast(gs[i], sts[i], i, o.ref))
    requires Delivers(o.entries, Picks(gs, sts, o.ref), |fs|) && TakenUpTo(gs, hs, Picks(gs, sts, o.ref), |fs|)
    ensures IsServed(hs[i], i, window, fixed, o)
  {
    if i == o.ref {
      assert gs[i] == fs[i] && Picks(gs, sts, o.ref)[i].Some?;
    } else {
      assert Stands(gs[i].front, o.target, window, sts[i]);
      if sts[i].Within? {
        assert Picks(gs, sts, o.ref)[i].Some?;
      } else {
        assert hs[i] == gs[i];
      }
    }
  }

  ghost predicate NoneHoldsUp(gs: seq<Face>, sts: seq<Standing>, ref: nat, fixed: Option<nat>) {
    && |gs| == |sts| && (forall i :: 0 <= i < |gs| ==> !Waits(gs[i], sts[i], i, ref))
    && (fixed.None? ==> forall i :: 0 <= i < |gs| ==> !IsPast(gs[i], sts[i], i, ref))
  }

  ghost predicate SomePast(gs: seq<Face>, sts: seq<Standing>, ref: nat) {
    |gs| == |sts| && exists i :: 0 <= i < |gs| && IsPast(gs[i], sts[i], i, ref)
  }

  ghost predicate SomeWaits(gs: seq<Face>, sts: seq<Standing>, ref: nat) {
    |gs| == |sts| && exists i :: 0 <= i < |gs| && Waits(gs[i], sts[i], i, ref)
  }

  /** What a turn decides on the ports as they were classified. */
  ghost predicate Decides(fs: seq<Face>, gs: seq<Face>, ref: nat, target: int, window: int, sts: seq<Standing>,
                          fixed: Option<nat>, o: Outcome) {
    && Turn(fs, gs, ref, target, window, sts)
    && (o.Again? <==> fixed.None? && SomePast(gs, sts, ref))
    && (o.Nothing? <==> !o.Again? && SomeWaits(gs, sts, ref))
    && (o.Serve? ==> o == Outcome.Serve(EntriesOf(Picks(gs, sts, ref), |gs|), ref, target))
  }

  /** The ports whose head a turn takes: none, the late reference, or all that are served. */
  ghost function TakenBy(o: Outcome, ref: nat): set<nat> {
    match o
    case Nothing => {}
    case Again => {ref}
    case Serve(entries, _, _) => PortsOf(entries)
  }

  /** A turn from the reference on: drop what is too old, decide, take heads. */
  ghost predicate Settles(ports: seq<Port>, qs: seq<Port>, ref: nat, target: int, window: int, fixed: Option<nat>,
                          o: Outcome, sorted: seq<Port>, sts: seq<Standing>) {
    && AllSkip(ports, sorted, Some(target - window))
    && Decides(Faces(ports), Faces(sorted), ref, target, window, sts, fixed, o)
    && HeadsTaken(sorted, qs, TakenBy(o, ref))
  }

  lemma {:induction false} BatchIsGood(fs: seq<Face>, gs: seq<Face>, hs: seq<Face>, window: int, sts: seq<Standing>,
        fixed: Option<nat>, o: Outcome)
    requires o.Serve? && Turn(fs, gs, o.ref, o.target, window, sts) && (fixed.Some? ==> o.ref == fixed.value)
    requires fixed.None? ==> Earliest(fs, |fs|, Some(o.ref), o.target)
    requires SameRequired(fs, gs) && SameRequired(fs, hs)
    requires NoneHoldsUp(gs, sts, o.ref, fixed)
    requires o.entries == EntriesOf(Picks(gs, sts, o.ref), |fs|) && TakenUpTo(gs, hs, Picks(gs, sts, o.ref), |fs|)
    ensures GoodBatch(hs, window, fixed, o)
  {
    var picks := Picks(gs, sts, o.ref);
    EntriesDeliver(picks, |fs|);
    assert gs[o.ref] == fs[o.ref] && picks[o.ref].Some?;
    forall k | 0 <= k < |o.entries|
      ensures o.entries[k].port < |hs| && InWindow(o.entries[k], o.ref, o.target, window) && IsPopped(hs, o.entries[k])
      ensures fixed.None? && fs[o.entries[k].port].required ==> o.target <= o.entries[k].packet.pts
    {
      PickInWindow(fs, gs, o.ref, o.target, window, sts, o.entries[k].port);
      if fixed.None? && fs[o.entries[k].port].required {
        PickNotEarlier(fs, gs, o.ref, o.target, window, sts, o.entries[k].port);
      }
    }
    forall i | 0 <= i < |hs| && hs[i].required ensures IsServed(hs[i], i, window, fixed, o) {
      RequiredServed(fs, gs, hs, window, sts, fixed, o, i);
    }
  }

  ghost predicate SameRequired(fs: seq<Face>, gs: seq<Face>) {
    |fs| == |gs| && forall i :: 0 <= i < |fs| ==> gs[i].required == fs[i].required
  }

  lemma {:induction false} MovedRequired(ports: seq<Port>, qs: seq<Port>, events: seq<Item>, data: nat)
    requires Moved(ports, qs, events, data)
    ensures SameRequired(Faces(ports), Faces(qs))
  {
    forall i | 0 <= i < |Faces(ports)| ensures Faces(qs)[i].required == Faces(ports)[i].required {
      assert AccountedFor(Faces(ports), Faces(qs), events, i);
    }
  }

  /** A port that has moved past, as evidence that the reference was dropped for good reason. */
  lemma {:induction false} PastIsBeyond(fs: seq<Face>, gs: seq<Face>, hs: seq<Face>, ref: nat, target: int,
        window: int, sts: seq<Standing>) returns (i: nat)
    requires Turn(fs, gs, ref, target, window, sts) && |hs| == |gs| && hs == gs[ref := hs[ref]]
    requires exists j :: 0 <= j < |gs| && IsPast(gs[j], sts[j], j, ref)
    ensures i < |hs| && hs[i].required && Beyond(hs[i], target + window)
  {
    i :| 0 <= i < |gs| && IsPast(gs[i], sts[i], i, ref);
    assert Stands(gs[i].front, target, window, sts[i]);
  }

  lemma {:induction false} WaitingIsStarved(fs: seq<Face>, gs: seq<Face>, ref: nat, target: int, window: int,
        sts: seq<Standing>) returns (i: nat)
    requires Turn(fs, gs, ref, target, window, sts)
    requires exists j :: 0 <= j < |gs| && Waits(gs[j], sts[j], j, ref)
    ensures i < |gs| && Starved(gs[i])
  {
    i :| 0 <= i < |gs| && Waits(gs[i], sts[i], i, ref);
    assert Stands(gs[i].front, target, window, sts[i]);
  }

  /** The rest of a turn, once the reference packet is known. */
  method Serve(ports: seq<Port>, ref: nat, target: int, window: int, fixed: Option<nat>)
    returns (qs: seq<Port>, o: Outcome, events: seq<Item>, drops: Drops, ghost sorted: seq<Port>,
             ghost standings: seq<Standing>)
    requires AllValid(ports) && ref < |ports| && ShowsPts(Faces(ports)[ref].front, target)
    requires fixed.Some? ==> ref == fixed.value
    requires fixed.None? ==> Earliest(Faces(ports), |ports|, Some(ref), target)
    ensures Moved(ports, qs, events, Lost(drops) + Served(o)) && |qs| == |ports|
    ensures o.Again? ==> Total(qs) < Total(ports) && fixed.None?
    ensures o.Again? ==> exists i :: 0 <= i < |qs| && Faces(qs)[i].required && Beyond(Faces(qs)[i], target + window)
    ensures o.Nothing? ==> exists i :: 0 <= i < |qs| && Starved(Faces(qs)[i])
    ensures o.Serve? ==> GoodBatch(Faces(qs), window, fixed, o)
    ensures Settles(ports, qs, ref, target, window, fixed, o, sorted, standings)
  {
    var cs, sts;
    cs, sts, events, drops := ClassifyAll(ports, ref, target, window);
    sorted, standings := cs, sts;
    AdvancedTotal(ports, cs);
    var wait, late := Verdict(Faces(cs), sts, ref);
    if late && fixed.None? {
      qs := DropReference(ports, cs, ref, target, window, sts, events, Lost(drops));
      drops, o := Plus(drops, Drops(0, 1)), Again;
    } else if wait {
      qs, o := cs, Nothing;
      KeepWaiting(ports, cs, ref, target, window, fixed, sts);
    } else {
      NobodyHoldsUp(Faces(cs), sts, ref, fixed);
      qs, o := Deliver(ports, cs, ref, target, window, fixed, sts, events, Lost(drops));
      DeliverySettles(ports, cs, qs, ref, target, window, fixed, sts, o);
    }
  }

  /** The reference is late: its packet is dropped. */
  method DropReference(ghost ports: seq<Port>, cs: seq<Port>, ref: nat, ghost target: int, ghost window: int,
                       ghost sts: seq<Standing>, ghost events: seq<Item>, ghost lost: nat)
    returns (qs: seq<Port>)
    requires Moved(ports, cs, events, lost) && |cs| == |ports| && Turn(Faces(ports), Faces(cs), ref, target, window, sts)
    requires AllSkip(ports, cs, Some(target - window)) && SomePast(Faces(cs), sts, ref)
    ensures Moved(ports, qs, events, lost + 1) && |qs| == |ports| && Total(qs) < Total(cs)
    ensures exists i :: 0 <= i < |qs| && Faces(qs)[i].required && Beyond(Faces(qs)[i], target + window)
    ensures Settles(ports, qs, ref, target, window, None, Again, cs, sts)
  {
    assert Faces(cs)[ref] == Faces(ports)[ref];
    var p;
    qs, p := TakeNext(ports, cs, ref, events, lost);
    DropSettles(ports, cs, qs, ref, target, window, sts);
    ghost var i := PastIsBeyond(Faces(ports), Faces(cs), Faces(qs), ref, target, window, sts);
  }

  lemma {:induction false} NobodyHoldsUp(gs: seq<Face>, sts: seq<Standing>, ref: nat, fixed: Option<nat>)
    requires |gs| == |sts| && !SomeWaits(gs, sts, ref) && (fixed.None? ==> !SomePast(gs, sts, ref))
    ensures NoneHoldsUp(gs, sts, ref, fixed)
  {
  }

  lemma {:induction false} DeliverySettles(ports: seq<Port>, cs: seq<Port>, qs: seq<Port>, ref: nat, target: int,
                                           window: int, fixed: Option<nat>, sts: seq<Standing>, o: Outcome)
    requires |cs| == |ports| && Turn(Faces(ports), Faces(cs), ref, target, window, sts)
    requires AllSkip(ports, cs, Some(target - window))
    requires !SomeWaits(Faces(cs), sts, ref) && (fixed.None? ==> !SomePast(Faces(cs), sts, ref))
    requires o == Outcome.Serve(EntriesOf(Picks(Faces(cs), sts, ref), |cs|), ref, target)
    requires HeadsTaken(cs, qs, PortsOf(o.entries))
    ensures Settles(ports, qs, ref, target, window, fixed, o, cs, sts)
  {
  }

  lemma {:induction false} DropSettles(ports: seq<Port>, cs: seq<Port>, qs: seq<Port>, ref: nat, target: int,
                                       window: int, sts: seq<Standing>)
    requires |cs| == |ports| == |qs| && Turn(Faces(ports), Faces(cs), ref, target, window, sts)
    requires AllSkip(ports, cs, Some(target - window)) && SomePast(Faces(cs), sts, ref)
    requires qs == cs[ref := qs[ref]] && TakesHead(cs[ref], qs[ref])
    ensures Settles(ports, qs, ref, target, window, None, Again, cs, sts)
  {
    HeadsNone(cs);
    HeadsMore(cs, cs, qs, {}, ref);
    assert {} + {ref} == {ref};
  }

  lemma {:induction false} KeepWaiting(ports: seq<Port>, cs: seq<Port>, ref: nat, target: int, window: int,
                                       fixed: Option<nat>, sts: seq<Standing>)
    requires |cs| == |ports| && Turn(Faces(ports), Faces(cs), ref, target, window, sts)
    requires AllSkip(ports, cs, Some(target - window)) && SomeWaits(Faces(cs), sts, ref)
    requires fixed.None? ==> !SomePast(Faces(cs), sts, ref)
    ensures exists i :: 0 <= i < |cs| && Starved(Faces(cs)[i])
    ensures Settles(ports, cs, ref, target, window, fixed, Nothing, cs, sts)
  {
    HeadsNone(cs);
    var i := WaitingIsStarved(Faces(ports), Faces(cs), ref, target, window, sts);
  }

  method Deliver(ghost ports: seq<Port>, cs: seq<Port>, ref: nat, target: int, window: int, fixed: Option<nat>,
                 sts: seq<Standing>, ghost events: seq<Item>, ghost lost: nat)
    returns (qs: seq<Port>, o: Outcome)
    requires Moved(ports, cs, events, lost) && |cs| == |ports| && Turn(Faces(ports), Faces(cs), ref, target, window, sts)
    requires fixed.Some? ==> ref == fixed.value
    requires fixed.None? ==> Earliest(Faces(ports), |ports|, Some(ref), target)
    requires NoneHoldsUp(Faces(cs), sts, ref, fixed)
    ensures o.Serve? && Moved(ports, qs, events, lost + Served(o)) && |qs| == |ports|
    ensures GoodBatch(Faces(qs), window, fixed, o)
    ensures o == Outcome.Serve(EntriesOf(Picks(Faces(cs), sts, ref), |cs|), ref, target)
    ensures HeadsTaken(cs, qs, PortsOf(o.entries))
  {
    ghost var fs, gs := Faces(ports), Faces(cs);
    var picks := Picks(Faces(cs), sts, ref);
    PicksAtHeads(fs, gs, ref, target, window, sts);
    MovedRequired(ports, cs, events, lost);
    var entries;
    qs, entries := TakeAll(ports, cs, picks, events, lost);
    MovedRequired(ports, qs, events, lost + |entries|);
    o := Outcome.Serve(entries, ref, target);
    BatchIsGood(fs, gs, Faces(qs), window, sts, fixed, o);
  }

  // -------------------------------------------------------------------------
  // The reference port has ended

  method DropHead(p: Port) returns (q: Port, events: seq<Packet>, stale: nat)
    requires Valid(p) && Head(p).Some? && Head(p).value.Data?
    ensures Advances(p, q) && !NeedsSkim(q) && Queued(q) < Queued(p)
    ensures BookOf(q.popped) == Added(BookOf(p.popped), 1 + stale, events)
  {
    TakeQueued(p);
    TakeValid(p);
    q, events, stale := Skim(TakeHead(p), None);
    TakeBook(p);
    AddedTwice(BookOf(p.popped), 1, [], stale, events);
    AddedNoted(BookOf(p.popped), 0, [], Head(p).value);
    assert [] + events == events;
  }

  /** Pops everything the port has. */
  method Drain(p: Port) returns (q: Port, events: seq<Packet>, drops: Drops)
    requires Valid(p)
    ensures Advances(p, q) && Head(q).None? && BookOf(q.popped) == Added(BookOf(p.popped), Lost(drops), events)
  {
    var stale;
    q, events, stale := Skim(p, None);
    drops := Drops(stale, 0);
    while Head(q).Some?
      invariant Advances(p, q) && !NeedsSkim(q) && BookOf(q.popped) == Added(BookOf(p.popped), Lost(drops), events)
      decreases Queued(q)
    {
      var r, more, dropped := DropHead(q);
      AddedTwice(BookOf(p.popped), Lost(drops), events, 1 + dropped, more);
      q, events, drops := r, events + more, Plus(drops, Drops(dropped, 1));
    }
  }

  /** Drains a port that has an edge, and marks it ended. */
  method Finish(p: Port) returns (q: Port, events: seq<Packet>, drops: Drops)
    requires Valid(p)
    ensures Advances(p, q) && q.ended && (p.edge.Some? ==> FaceOf(q).front.None?)
    ensures BookOf(q.popped) == Added(BookOf(p.popped), Lost(drops), events)
  {
    q, events, drops := p, [], Drops(0, 0);
    AddedTwice(BookOf(p.popped), 0, [], 0, []);
    if p.edge.Some? {
      q, events, drops := Drain(p);
    }
    IgnoredFields(q, q.required, true);
    q := q.(ended := true);
  }

  /** The port has ended, and if it has an edge there is nothing left to read. */
  predicate AtItsEnd(p: Port) {
    p.ended && (p.edge.Some? ==> FaceOf(p).front.None?)
  }

  predicate AllAtEnd(ports: seq<Port>) {
    forall i :: 0 <= i < |ports| ==> AtItsEnd(ports[i])
  }

  method FinishNext(ghost ports: seq<Port>, qs: seq<Port>, i: nat, events: seq<Item>, drops: Drops)
    returns (rs: seq<Port>, more: seq<Item>, dropped: Drops)
    requires Moved(ports, qs, events, Lost(drops)) && i < |qs| == |ports|
    ensures Moved(ports, rs, more, Lost(dropped)) && |rs| == |ports|
    ensures rs == qs[i := rs[i]] && AtItsEnd(rs[i])
  {
    AdvancedValid(ports, qs);
    assert ValidAt(qs, i);
    var q, es, d := Finish(qs[i]);
    MovedOne(qs, i, q, es, Lost(d));
    rs := qs[i := q];
    MovedTwice(ports, qs, rs, events, Lost(drops), Tag(i, es), Lost(d));
    more, dropped := events + Tag(i, es), Plus(drops, d);
  }

  /** The input ends with its reference port: every port ends, and what is left is dropped and counted. */
  method FinishAll(ghost ports: seq<Port>, before: seq<Port>, events: seq<Item>, drops: Drops)
    returns (qs: seq<Port>, more: seq<Item>, dropped: Drops)
    requires Moved(ports, before, events, Lost(drops)) && |before| == |ports|
    ensures Moved(ports, qs, more, Lost(dropped)) && |qs| == |ports|
    ensures AllAtEnd(qs)
  {
    qs, more, dropped := before, events, drops;
    for i := 0 to |before|
      invariant Moved(ports, qs, more, Lost(dropped)) && |qs| == |ports|
      invariant forall j :: 0 <= j < i ==> AtItsEnd(qs[j])
    {
      qs, more, dropped := FinishNext(ports, qs, i, more, dropped);
    }
  }

  /** Why an acquire came back without data: a required port is starved, none shows data, or the reference is at its end. */
  ghost predicate NothingToServe(fs: seq<Face>, fixed: Option<nat>) {
    || (exists i :: 0 <= i < |fs| && Starved(fs[i]))
    || (fixed.None? && forall i :: 0 <= i < |fs| && fs[i].required ==> fs[i].front.None?)
    || (fixed.Some? && fixed.value < |fs| && (forall i :: 0 <= i < |fs| ==> fs[i].ended))
    || (fixed.Some? && fixed.value < |fs| && fs[fixed.value].front.None?)
  }

  lemma {:induction false} AtEndFaces(ports: seq<Port>)
    requires AllAtEnd(ports)
    ensures forall i :: 0 <= i < |ports| ==> Faces(ports)[i].ended
  {
    forall i | 0 <= i < |ports| ensures Faces(ports)[i].ended {
      FaceAt(ports, i);
    }
  }

  /** No reference packet: the fixed port shows none, or no required port does. */
  ghost predicate NoReference(fs: seq<Face>, fixed: Option<nat>) {
    if fixed.Some? then fixed.value < |fs| && fs[fixed.value].front.None?
    else forall i :: 0 <= i < |fs| && fs[i].required ==> fs[i].front.None?
  }

  /** The end of the search: nothing more is done, or the fixed port is at its end and the input with it. */
  ghost predicate Stops(found: seq<Port>, qs: seq<Port>, fixed: Option<nat>) {
    if fixed.Some? && fixed.value < |found| && found[fixed.value].ended then AllAtEnd(qs) else qs == found
  }

  /** Looks for the reference packet: the head of the fixed port, or the earliest required head. */
  method FindReference(ports: seq<Port>, fixed: Option<nat>)
    returns (qs: seq<Port>, ref: Option<nat>, target: int, events: seq<Item>, drops: Drops, ghost found: seq<Port>)
    requires AllValid(ports) && (fixed.Some? ==> fixed.value < |ports|)
    ensures AllSkip(ports, found, None) && (ref.Some? ==> qs == found)
    ensures ref.None? ==> NoReference(Faces(found), fixed) && Stops(found, qs, fixed)
    ensures Moved(ports, qs, events, Lost(drops)) && |qs| == |ports|
    ensures ref.Some? ==> ref.value < |qs| && ShowsPts(Faces(qs)[ref.value].front, target)
    ensures ref.Some? && fixed.Some? ==> ref == fixed
    ensures ref.Some? && fixed.None? ==> Earliest(Faces(qs), |qs|, ref, target)
    ensures ref.None? ==> NothingToServe(Faces(qs), fixed)
  {
    var stale;
    ref, target := None, 0;
    if fixed.Some? {
      var front;
      qs, front, events, stale := SkimAt(ports, fixed.value);
      drops, found := Drops(stale, 0), qs;
      if front.Some? {
        ref, target := fixed, front.value.pts;
      } else if qs[fixed.value].ended {
        qs, events, drops := FinishAll(ports, qs, events, drops);
        AtEndFaces(qs);
      }
    } else {
      qs, ref, target, events, stale := EarliestRequired(ports);
      drops, found := Drops(stale, 0), qs;
    }
  }

  /** How a turn went: the ports once the reference was sought, and then once they were classified. */
  datatype Turned =
    | Idle(found: seq<Port>)
    | Tried(found: seq<Port>, ref: nat, target: int, sorted: seq<Port>, standings: seq<Standing>)

  /**
   * A turn of the retry loop in full. The search for the reference passes over
   * markers, events and stale data; without a reference the turn stops there.
   * With one, ports drop what is older than its window, and the outcome and the
   * heads taken follow from what they then show.
   */
  ghost predicate IsTurn(ports: seq<Port>, qs: seq<Port>, window: int, fixed: Option<nat>, o: Outcome, t: Turned) {
    && AllSkip(ports, t.found, None)
    && match t
       case Idle(found) => o.Nothing? && NoReference(Faces(found), fixed) && Stops(found, qs, fixed)
       case Tried(found, ref, target, sorted, standings) =>
         && (if fixed.Some? then ref == fixed.value else Earliest(Faces(found), |found|, Some(ref), target))
         && Settles(found, qs, ref, target, window, fixed, o, sorted, standings)
  }

  /** One turn of the retry loop. */
  method AlignOnce(ports: seq<Port>, window: int, fixed: Option<nat>)
    returns (qs: seq<Port>, o: Outcome, events: seq<Item>, drops: Drops, ghost t: Turned)
    requires AllValid(ports) && (fixed.Some? ==> fixed.value < |ports|)
    ensures Moved(ports, qs, events, Lost(drops) + Served(o)) && |qs| == |ports|
    ensures o.Again? ==> Total(qs) < Total(ports)
    ensures o.Nothing? ==> NothingToServe(Faces(qs), fixed)
    ensures o.Serve? ==> GoodBatch(Faces(qs), window, fixed, o)
    ensures IsTurn(ports, qs, window, fixed, o, t)
  {
    var ref, target;
    ghost var found;
    qs, ref, target, events, drops, found := FindReference(ports, fixed);
    if ref.None? {
      o, t := Nothing, Idle(found);
    } else {
      AdvancedValid(ports, qs);
      AdvancedTotal(ports, qs);
      var rs, more, dropped;
      ghost var sorted, standings;
      rs, o, more, dropped, sorted, standings := Serve(qs, ref.value, target, window, fixed);
      t := Tried(found, ref.value, target, sorted, standings);
      MovedTwice(ports, qs, rs, events, Lost(drops), more, Lost(dropped) + Served(o));
      qs, events, drops := rs, events + more, Plus(drops, dropped);
    }
  }

  /** What holds of the ports after the last turn. */
  ghost predicate Concludes(fs: seq<Face>, window: int, fixed: Option<nat>, o: Outcome) {
    (o.Nothing? ==> NothingToServe(fs, fixed)) && (o.Serve? ==> GoodBatch(fs, window, fixed, o))
  }

  /** The turns of a retry loop: all but the last end in another try. */
  ghost predicate IsPath(path: seq<seq<Port>>, ts: seq<Turned>, window: int, fixed: Option<nat>, o: Outcome) {
    |path| == |ts| + 1 && forall k :: 0 <= k < |ts| ==> TurnAt(path, ts, window, fixed, o, k)
  }

  ghost predicate TurnAt(path: seq<seq<Port>>, ts: seq<Turned>, window: int, fixed: Option<nat>, o: Outcome, k: nat)
    requires k < |ts| && |path| == |ts| + 1
  {
    IsTurn(path[k], path[k + 1], window, fixed, if k == |ts| - 1 then o else Again, ts[k])
  }

  lemma {:induction false} PathMore(path: seq<seq<Port>>, ts: seq<Turned>, window: int, fixed: Option<nat>,
                                    qs: seq<Port>, o: Outcome, t: Turned)
    requires IsPath(path, ts, window, fixed, Again) && IsTurn(path[|ts|], qs, window, fixed, o, t)
    ensures IsPath(path + [qs], ts + [t], window, fixed, o)
  {
    var path', ts' := path + [qs], ts + [t];
    forall k | 0 <= k < |ts'| ensures TurnAt(path', ts', window, fixed, o, k) {
      if k < |ts| {
        assert TurnAt(path, ts, window, fixed, Again, k);
      }
    }
  }

  /** The retry loop so far: what it moved, how it stands, and the turns it took. */
  ghost predicate Aligned(ports: seq<Port>, qs: seq<Port>, window: int, fixed: Option<nat>, o: Outcome,
                          events: seq<Item>, drops: Drops, path: seq<seq<Port>>, ts: seq<Turned>) {
    && Moved(ports, qs, events, Lost(drops) + Served(o)) && |qs| == |ports| && Concludes(Faces(qs), window, fixed, o)
    && IsPath(path, ts, window, fixed, o) && path[0] == ports && path[|ts|] == qs
  }

  lemma {:induction false} AlignedStart(ports: seq<Port>, window: int, fixed: Option<nat>)
    requires AllValid(ports)
    ensures Aligned(ports, ports, window, fixed, Again, [], Drops(0, 0), [ports], [])
  {
    var path, ts := [ports], [];
    assert IsPath(path, ts, window, fixed, Again) && path[0] == ports && path[|ts|] == ports;
    assert Lost(Drops(0, 0)) + Served(Again) == 0;
    MovedNone(ports);
    assert Moved(ports, ports, [], Lost(Drops(0, 0)) + Served(Again));
  }

  method AlignNext(ghost ports: seq<Port>, qs: seq<Port>, window: int, fixed: Option<nat>, events: seq<Item>,
                   drops: Drops, ghost path: seq<seq<Port>>, ghost ts: seq<Turned>)
    returns (rs: seq<Port>, o: Outcome, more: seq<Item>, dropped: Drops, ghost longer: seq<seq<Port>>,
             ghost turns: seq<Turned>)
    requires Aligned(ports, qs, window, fixed, Again, events, drops, path, ts)
    requires fixed.Some? ==> fixed.value < |ports|
    ensures Aligned(ports, rs, window, fixed, o, more, dropped, longer, turns) && turns != []
    ensures o.Again? ==> Total(rs) < Total(qs)
  {
    AdvancedValid(ports, qs);
    ghost var t;
    rs, o, more, dropped, t := AlignOnce(qs, window, fixed);
    MovedTwice(ports, qs, rs, events, Lost(drops), more, Lost(dropped) + Served(o));
    more, dropped := events + more, Plus(drops, dropped);
    PathMore(path, ts, window, fixed, rs, o, t);
    longer, turns := path + [rs], ts + [t];
  }

  /** The retry loop: every turn but the last drops one late packet. */
  method Align(ports: seq<Port>, window: int, fixed: Option<nat>)
    returns (qs: seq<Port>, o: Outcome, events: seq<Item>, drops: Drops, ghost path: seq<seq<Port>>,
             ghost ts: seq<Turned>)
    requires AllValid(ports) && (fixed.Some? ==> fixed.value < |ports|)
    ensures Aligned(ports, qs, window, fixed, o, events, drops, path, ts) && !o.Again? && ts != []
  {
    qs, o, events, drops := ports, Again, [], Drops(0, 0);
    path, ts := [ports], [];
    AlignedStart(ports, window, fixed);
    while o.Again?
      invariant Aligned(ports, qs, window, fixed, o, events, drops, path, ts) && (ts == [] ==> o.Again?)
      decreases if o.Again? then 1 + Total(qs) else 0
    {
      qs, o, events, drops, path, ts := AlignNext(ports, qs, window, fixed, events, drops, path, ts);
    }
  }

  // -------------------------------------------------------------------------
  // Rebinding the table

  /** A port of the new table: its name, whether it is required, and the edge bound to it. */
  datatype PortSpec = PortSpec(name: string, required: bool, edge: Option<EdgeId>)

  function Named(ports: seq<Port>, name: string): (k: nat)
    ensures k <= |ports| && (k < |ports| ==> ports[k].name == name)
    ensures forall i :: 0 <= i < k ==> ports[i].name != name
  {
    if ports == [] || ports[0].name == name then 0 else 1 + Named(ports[1..], name)
  }

  /** An edge is new to the port unless the port already has it as its edge. */
  predicate Fits(ports: seq<Port>, spec: PortSpec) {
    var k := Named(ports, spec.name);
    k < |ports| && spec.edge.Some? && spec.edge != ports[k].edge ==> spec.edge.value !in ports[k].chans
  }

  /** A port keeps its history across tables; a port that is new starts without one. */
  function Carried(ports: seq<Port>, spec: PortSpec): Port {
    var k := Named(ports, spec.name);
    if k < |ports| && Bound(ports[k]) then InputPorts.Rebind(ports[k], spec.edge, spec.required)
    else NewPort(spec.name, spec.required, spec.edge)
  }

  lemma {:induction false} CarriedValid(ports: seq<Port>, spec: PortSpec)
    requires AllValid(ports) && Fits(ports, spec)
    ensures Valid(Carried(ports, spec))
  {
    var k := Named(ports, spec.name);
    NewPortValid(spec.name, spec.required, spec.edge);
    if k < |ports| {
      assert ValidAt(ports, k);
      RebindValid(ports[k], spec.edge, spec.required);
    }
  }

  /** The old edge has to be drained before the new one, unless it ended and is empty. */
  predicate MustDrain(p: Port) {
    p.edge.Some? && (p.ended && p.edge.value in p.chans ==> p.chans[p.edge.value].queue != [])
  }

  /** q is p under its new binding: the same pops and the same packets queued, behind what p had still to drain. */
  ghost predicate HandsOver(p: Port, spec: PortSpec, q: Port) {
    && q.name == p.name && q.required == spec.required && q.edge == spec.edge && q.popped == p.popped
    && (forall e :: e in p.chans ==> e in q.chans && q.chans[e].queue == p.chans[e].queue)
    && if spec.edge == p.edge then q.ended == p.ended && q.predecessors == p.predecessors
       else
         && !q.ended && q.predecessors == p.predecessors + (if MustDrain(p) then [p.edge.value] else [])
         && (spec.edge.Some? ==> spec.edge.value in q.chans && q.chans[spec.edge.value].queue == [])
  }

  /** A port without history. */
  predicate IsFresh(spec: PortSpec, q: Port) {
    && q.name == spec.name && q.required == spec.required && q.edge == spec.edge && !q.ended
    && q.popped == [] && q.predecessors == []
    && (spec.edge.Some? ==> spec.edge.value in q.chans && q.chans[spec.edge.value].queue == [])
  }

  predicate IsFirstNamed(ports: seq<Port>, name: string, k: int) {
    0 <= k < |ports| && ports[k].name == name && forall i :: 0 <= i < k ==> ports[i].name != name
  }

  lemma {:induction false} CarriedHandsOver(ports: seq<Port>, spec: PortSpec)
    requires AllValid(ports) && Fits(ports, spec)
    ensures forall k :: IsFirstNamed(ports, spec.name, k) ==> HandsOver(ports[k], spec, Carried(ports, spec))
    ensures (forall k :: 0 <= k < |ports| ==> ports[k].name != spec.name) ==> IsFresh(spec, Carried(ports, spec))
  {
    var k := Named(ports, spec.name);
    if k < |ports| {
      assert ValidAt(ports, k);
      RebindHandsOver(ports[k], spec);
      assert forall l :: IsFirstNamed(ports, spec.name, l) ==> l == k;
    }
  }

  lemma {:induction false} RebindHandsOver(p: Port, spec: PortSpec)
    requires Bound(p) && (spec.edge.Some? && spec.edge != p.edge ==> spec.edge.value !in p.chans)
    ensures HandsOver(p, spec, InputPorts.Rebind(p, spec.edge, spec.required))
  {
    assert p.edge.Some? ==> p.edge.value in Line(p);
    var q := SetAside(p);
    forall e | e in p.chans ensures e in q.chans && q.chans[e].queue == p.chans[e].queue {
      AsideKeeps(p, e);
    }
    assert q.predecessors == p.predecessors + (if MustDrain(p) then [p.edge.value] else []);
  }

  ghost predicate CarriedAll(ports: seq<Port>, specs: seq<PortSpec>, next: seq<Port>) {
    |next| == |specs| && forall i :: 0 <= i < |specs| ==> next[i] == Carried(ports, specs[i])
  }

  lemma {:induction false} CarriedAllValid(ports: seq<Port>, specs: seq<PortSpec>, next: seq<Port>)
    requires AllValid(ports) && CarriedAll(ports, specs, next)
    requires forall i :: 0 <= i < |specs| ==> Fits(ports, specs[i])
    ensures AllValid(next)
  {
    forall i | 0 <= i < |next| ensures ValidAt(next, i) {
      CarriedValid(ports, specs[i]);
    }
  }

  method CarryAll(ports: seq<Port>, specs: seq<PortSpec>) returns (next: seq<Port>)
    ensures CarriedAll(ports, specs, next)
  {
    next := [];
    for i := 0 to |specs|
      invariant CarriedAll(ports, specs[..i], next)
    {
      next := next + [Carried(ports, specs[i])];
    }
  }

  predicate Present(specs: seq<PortSpec>, name: string) {
    exists i :: 0 <= i < |specs| && specs[i].name == name
  }

  /** All edges that feed the port are fast retired. */
  function RetireLine(p: Port): (q: Port)
    ensures forall e :: e in Line(p) && e in p.chans ==> e in q.chans && Finished(q.chans[e])
    ensures forall e :: e !in Line(p) && e in p.chans ==> e in q.chans && q.chans[e] == p.chans[e]
  {
    p.(chans := map e | e in p.chans :: if e in Line(p) then Change(p.chans[e], Retire(true)) else p.chans[e])
  }

  ghost predicate IsVanished(ports: seq<Port>, specs: seq<PortSpec>, q: Port) {
    exists i :: 0 <= i < |ports| && !Present(specs, ports[i].name) && q == RetireLine(ports[i])
  }

  /** The ports that the new table does not have, with nobody left to read their edges. */
  method RetireVanished(ports: seq<Port>, specs: seq<PortSpec>) returns (gone: seq<Port>)
    ensures forall i :: 0 <= i < |ports| && !Present(specs, ports[i].name) ==> RetireLine(ports[i]) in gone
    ensures forall k :: 0 <= k < |gone| ==> IsVanished(ports, specs, gone[k])
  {
    gone := [];
    for i := 0 to |ports|
      invariant forall j :: 0 <= j < i && !Present(specs, ports[j].name) ==> RetireLine(ports[j]) in gone
      invariant forall k :: 0 <= k < |gone| ==> IsVanished(ports, specs, gone[k])
    {
      if !Present(specs, ports[i].name) {
        gone := gone + [RetireLine(ports[i])];
      }
    }
  }

  // -------------------------------------------------------------------------
  // The binding

  function EventsOf(r: Option<Batch>): seq<Item> {
    if r.Some? then r.value.events else []
  }

  function EntriesIn(r: Option<Batch>): seq<Item> {
    if r.Some? then r.value.entries else []
  }

  /** What an acquire returns for the outcome of its last turn. */
  ghost predicate Returns(r: Option<Batch>, fs: seq<Face>, window: int, fixed: Option<nat>, o: Outcome) {
    && EntriesIn(r) == (if o.Serve? then o.entries else [])
    && (o.Serve? ==> EntriesIn(r) != []) && Concludes(fs, window, fixed, o)
    && (r.Some? ==> EntriesIn(r) != [] || EventsOf(r) != [])
  }

  class Binding {
    var ports: seq<Port>
    var window: int
    var reference: Option<string>
    var dropped: Drops

    ghost predicate Valid()
      reads this
    {
      AllValid(ports)
    }

    constructor (window: int, reference: Option<string>)
      ensures Valid() && ports == [] && this.window == window && this.reference == reference && dropped == Drops(0, 0)
    {
      ports, dropped := [], Drops(0, 0);
      this.window, this.reference := window, reference;
    }

    /**
     * Publishes a new table: kept ports hand over from their old edge to the new
     * one, and the edges of ports that vanish are retired.
     */
    method Rebind(specs: seq<PortSpec>, window: int, reference: Option<string>) returns (gone: seq<Port>)
      requires Valid() && forall i :: 0 <= i < |specs| ==> Fits(ports, specs[i])
      modifies this
      ensures Valid() && CarriedAll(old(ports), specs, ports) && dropped == old(dropped)
      ensures this.window == window && this.reference == reference && |ports| == |specs|
      ensures forall i, k :: 0 <= i < |specs| && IsFirstNamed(old(ports), specs[i].name, k) ==>
                HandsOver(old(ports)[k], specs[i], ports[i])
      ensures forall i :: 0 <= i < |specs| && (forall k :: 0 <= k < |old(ports)| ==> old(ports)[k].name != specs[i].name) ==>
                IsFresh(specs[i], ports[i])
      ensures forall i :: 0 <= i < |old(ports)| && !Present(specs, old(ports)[i].name) ==> RetireLine(old(ports)[i]) in gone
      ensures forall k :: 0 <= k < |gone| ==> IsVanished(old(ports), specs, gone[k])
    {
      gone := RetireVanished(ports, specs);
      var next := CarryAll(ports, specs);
      CarriedAllValid(ports, specs, next);
      forall i | 0 <= i < |specs|
        ensures forall k :: IsFirstNamed(ports, specs[i].name, k) ==> HandsOver(ports[k], specs[i], next[i])
        ensures (forall k :: 0 <= k < |ports| ==> ports[k].name != specs[i].name) ==> IsFresh(specs[i], next[i])
      {
        CarriedHandsOver(ports, specs[i]);
      }
      ports := next;
      this.window, this.reference := window, reference;
    }

    /** The fixed reference port: the last in the table that has its name. */
    method FixedReference() returns (fixed: Option<nat>)
      ensures IsReference(ports, reference, fixed)
    {
      fixed := None;
      if reference.Some? {
        for i := 0 to |ports|
          invariant IsReference(ports[..i], reference, fixed)
        {
          if ports[i].name == reference.value {
            fixed := Some(i);
          }
        }
        assert ports[..|ports|] == ports;
      }
    }

    /**
     * Ends after finitely many turns. A batch with data is a good one; without
     * one there is a port to wait for, or the input is at its end. Every event
     * popped is delivered, on its port and in order, and every data packet
     * popped is delivered or counted as dropped. The turns it took are given in
     * full: what each passed over, dropped and took, and why it ended as it did.
     */
    method AcquireAligned()
      returns (r: Option<Batch>, ghost fixed: Option<nat>, ghost o: Outcome, ghost lost: Drops,
               ghost path: seq<seq<Port>>, ghost ts: seq<Turned>)
      requires Valid()
      modifies this`ports, this`dropped
      ensures Valid() && IsReference(old(ports), reference, fixed) && !o.Again?
      ensures Returns(r, Faces(ports), window, fixed, o)
      ensures Moved(old(ports), ports, EventsOf(r), Lost(lost) + |EntriesIn(r)|) && dropped == Plus(old(dropped), lost)
      ensures IsPath(path, ts, window, fixed, o) && ts != [] && path[0] == old(ports) && path[|ts|] == ports
    {
      var port := FixedReference();
      var qs, outcome, events, drops;
      qs, outcome, events, drops, path, ts := Align(ports, window, port);
      AdvancedValid(ports, qs);
      fixed, o, lost := port, outcome, drops;
      ports, dropped := qs, Plus(dropped, drops);
      if outcome.Serve? {
        r := Some(Batch(outcome.entries, events));
      } else {
        r := if events == [] then None else Some(Batch([], events));
      }
    }
  }

  /** The last port of the given name, if there is one. */
  predicate IsReference(ports: seq<Port>, name: Option<string>, fixed: Option<nat>) {
    if fixed.Some? then
      && fixed.value < |ports| && name == Some(ports[fixed.value].name)
      && forall i :: fixed.value < i < |ports| ==> Some(ports[i].name) != name
    else
      forall i :: 0 <= i < |ports| ==> Some(ports[i].name) != name
  }
}
