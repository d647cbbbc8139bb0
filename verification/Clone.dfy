/** Deep copy of metadata graphs (pkg/yeoul/clone.go): containers with sharing and
    cycles, copied with a table of the containers already visited.

    The Go heap is a map from addresses to containers. A slice view, that is a pointer
    with its length and capacity, counts as one container of its own. */
module Clone {
  import opened Identity

  type Addr = nat

  datatype Leaf = Num(n: int) | Str(s: string)

  datatype NilKind = NilAnyMap | NilAnySlice | NilOther

  /** A value: a scalar, a nil, a reference, or an array or struct held in place. */
  datatype Val = Atom(leaf: Leaf) | Nil(kind: NilKind) | Ref(addr: Addr) | Inline(items: seq<Val>)

  /** A container. The flag tells map[string]any and []any from more specific types. */
  datatype Cell =
    | MapCell(generic: bool, entries: map<Leaf, Val>)
    | SliceCell(generic: bool, items: seq<Val>)
    | StrCell(strings: seq<string>)
    | PtrCell(target: Val)

  type Heap = map<Addr, Cell>

  /** The visited table, and the copies that are not entered in it (string slices, and
      what a nil []any turns into). */
  datatype Tables = Tables(visited: map<Addr, Addr>, loose: map<Addr, Cell>)

  // ----- what counts as a copy -----

  /** Every reference inside a value stays within the source graph. */
  predicate Known(source: Heap, v: Val) {
    match v
    case Ref(a) => a in source
    case Inline(items) => forall i :: 0 <= i < |items| ==> Known(source, items[i])
    case _ => true
  }

  predicate KnownCell(source: Heap, c: Cell) {
    match c
    case MapCell(_, entries) => forall k :: k in entries ==> Known(source, entries[k])
    case SliceCell(_, items) => forall i :: 0 <= i < |items| ==> Known(source, items[i])
    case StrCell(_) => true
    case PtrCell(target) => Known(source, target)
  }

  ghost predicate Closed(source: Heap) {
    forall a :: a in source ==> KnownCell(source, source[a])
  }

  /** `w` copies `v`: equal scalars, and references that lead to the recorded copy. An
      empty generic map may have become nil, and a nil generic slice empty. */
  ghost predicate Rel(source: Heap, t: Tables, v: Val, w: Val)
    decreases v
  {
    match v
    case Atom(_) => w == v
    case Nil(kind) => w == v || (kind.NilAnySlice? && w.Ref? && IsLoose(t, w.addr, SliceCell(true, [])))
    case Ref(a) =>
      a in source &&
      ((w.Ref? && a in t.visited && t.visited[a] == w.addr) ||
       (w.Ref? && source[a].StrCell? && IsLoose(t, w.addr, source[a])) ||
       (w == Nil(NilAnyMap) && source[a] == MapCell(true, map[])))
    case Inline(items) =>
      w.Inline? && |w.items| == |items| && forall i :: 0 <= i < |items| ==> Rel(source, t, items[i], w.items[i])
  }

  predicate IsLoose(t: Tables, b: Addr, c: Cell) {
    b in t.loose && t.loose[b] == c
  }

  ghost predicate CellRel(source: Heap, t: Tables, c: Cell, d: Cell) {
    match c
    case MapCell(generic, entries) =>
      d.MapCell? && d.generic == generic && d.entries.Keys == entries.Keys &&
      forall k :: k in entries ==> Rel(source, t, entries[k], d.entries[k])
    case SliceCell(generic, items) =>
      d.SliceCell? && d.generic == generic && |d.items| == |items| &&
      forall i :: 0 <= i < |items| ==> Rel(source, t, items[i], d.items[i])
    case StrCell(_) => d == c
    case PtrCell(target) => d.PtrCell? && Rel(source, t, target, d.target)
  }

  // ----- the copier's invariant -----

  ghost predicate Intact(source: Heap, heap: Heap) {
    forall a :: a in source ==> a in heap && heap[a] == source[a]
  }

  /** Each visited container has a copy of its own outside the source. */
  ghost predicate TableOk(source: Heap, heap: Heap, t: Tables) {
    (forall a :: a in t.visited ==>
      a in source && t.visited[a] in heap && t.visited[a] !in source && t.visited[a] !in t.loose) &&
    (forall a, b :: a in t.visited && b in t.visited && a != b ==> t.visited[a] != t.visited[b])
  }

  ghost predicate LooseOk(source: Heap, heap: Heap, t: Tables) {
    forall b :: b in t.loose ==>
      b in heap && heap[b] == t.loose[b] && b !in source &&
      (t.loose[b].StrCell? || t.loose[b] == SliceCell(true, []))
  }

  /** The copies of visited containers are finished, except those still being filled. */
  ghost predicate Filled(source: Heap, heap: Heap, t: Tables, open_: set<Addr>)
    requires TableOk(source, heap, t)
  {
    forall a :: a in t.visited && a !in open_ ==> CellRel(source, t, source[a], heap[t.visited[a]])
  }

  ghost predicate MemOk(source: Heap, heap: Heap, t: Tables, open_: set<Addr>) {
    Closed(source) && Intact(source, heap) && TableOk(source, heap, t) && LooseOk(source, heap, t) &&
    open_ <= t.visited.Keys && Filled(source, heap, t, open_)
  }

  ghost predicate Grow(t: Tables, u: Tables) {
    (forall a :: a in t.visited ==> a in u.visited && u.visited[a] == t.visited[a]) &&
    (forall b :: b in t.loose ==> b in u.loose && u.loose[b] == t.loose[b])
  }

  /** Nothing that existed is changed. */
  ghost predicate Extends(heap: Heap, heap': Heap) {
    forall b :: b in heap ==> b in heap' && heap'[b] == heap[b]
  }

  /** Nothing that existed is changed, but for the copy that is being filled. */
  ghost predicate ExtendsBut(heap: Heap, heap': Heap, out: Addr) {
    out in heap' && forall b :: b in heap && b != out ==> b in heap' && heap'[b] == heap[b]
  }

  ghost predicate Kept(heap: Heap, t: Tables, heap': Heap, u: Tables) {
    Extends(heap, heap') && Grow(t, u)
  }

  ghost predicate KeptBut(heap: Heap, t: Tables, heap': Heap, u: Tables, out: Addr) {
    ExtendsBut(heap, heap', out) && Grow(t, u)
  }

  ghost predicate Below(heap: Heap, next: Addr) {
    forall b :: b in heap ==> b < next
  }

  lemma KeptStarts(heap: Heap, t: Tables)
    ensures Kept(heap, t, heap, t)
    ensures forall out :: out in heap ==> KeptBut(heap, t, heap, t, out)
  {
  }

  lemma KeptThen(heap: Heap, t: Tables, heap1: Heap, t1: Tables, heap2: Heap, t2: Tables)
    requires Kept(heap, t, heap1, t1) && Kept(heap1, t1, heap2, t2)
    ensures Kept(heap, t, heap2, t2) && t.visited.Keys <= t1.visited.Keys <= t2.visited.Keys
  {
  }

  /** A step of filling: clone a child, then write it into the copy. */
  lemma KeptButThen(heap: Heap, t: Tables, heap1: Heap, t1: Tables, heap2: Heap, t2: Tables, out: Addr, c: Cell)
    requires KeptBut(heap, t, heap1, t1, out) && Kept(heap1, t1, heap2, t2)
    ensures KeptBut(heap, t, heap2[out := c], t2, out)
    ensures out in heap2 && heap2[out] == heap1[out]
    ensures forall a :: a in t1.visited ==> a in t2.visited && t2.visited[a] == t1.visited[a]
  {
  }

  lemma KeptBoth(heap: Heap, t: Tables, heap': Heap, u: Tables)
    requires Extends(heap, heap') && Grow(t, u)
    ensures Kept(heap, t, heap', u)
  {
  }

  lemma Allocated(heap: Heap, next: Addr, c: Cell)
    requires Below(heap, next)
    ensures next !in heap && Below(heap[next := c], next + 1) && Extends(heap, heap[next := c])
  {
  }

  lemma RefCopied(source: Heap, t: Tables, a: Addr)
    requires a in source && a in t.visited
    ensures Rel(source, t, Ref(a), Ref(t.visited[a]))
  {
  }

  lemma {:induction false} RelStays(source: Heap, t: Tables, u: Tables, v: Val, w: Val)
    requires Grow(t, u) && Rel(source, t, v, w)
    ensures Rel(source, u, v, w)
    decreases v
  {
    if v.Inline? {
      forall i | 0 <= i < |v.items|
        ensures Rel(source, u, v.items[i], w.items[i])
      {
        RelStays(source, t, u, v.items[i], w.items[i]);
      }
    }
  }

  lemma CellRelStays(source: Heap, t: Tables, u: Tables, c: Cell, d: Cell)
    requires Grow(t, u) && CellRel(source, t, c, d)
    ensures CellRel(source, u, c, d)
  {
    hide Rel, Grow;
    match c
    case MapCell(_, entries) =>
      forall k | k in entries
        ensures Rel(source, u, entries[k], d.entries[k])
      {
        RelStays(source, t, u, entries[k], d.entries[k]);
      }
    case SliceCell(_, items) =>
      forall i | 0 <= i < |items|
        ensures Rel(source, u, items[i], d.items[i])
      {
        RelStays(source, t, u, items[i], d.items[i]);
      }
    case StrCell(_) =>
    case PtrCell(target) => RelStays(source, t, u, target, d.target);
  }

  /** Finished copies stay finished when the tables grow and no finished copy changes. */
  lemma FilledStays(source: Heap, heap: Heap, t: Tables, heap': Heap, u: Tables, open_: set<Addr>, more: set<Addr>)
    requires TableOk(source, heap, t) && TableOk(source, heap', u) && Filled(source, heap, t, open_) && Grow(t, u)
    requires u.visited.Keys <= t.visited.Keys + more && open_ <= more
    requires forall a :: a in t.visited && a !in more ==> heap'[t.visited[a]] == heap[t.visited[a]]
    ensures Filled(source, heap', u, more)
  {
    hide CellRel;
    forall a | a in u.visited && a !in more
      ensures CellRel(source, u, source[a], heap'[u.visited[a]])
    {
      CellRelStays(source, t, u, source[a], heap[t.visited[a]]);
    }
  }

  lemma OpenTable(source: Heap, heap: Heap, t: Tables, a: Addr, b: Addr, c: Cell)
    requires Intact(source, heap) && TableOk(source, heap, t) && LooseOk(source, heap, t)
    requires a in source && a !in t.visited && b !in heap
    ensures TableOk(source, heap[b := c], Tables(t.visited[a := b], t.loose))
    ensures LooseOk(source, heap[b := c], Tables(t.visited[a := b], t.loose))
  {
  }

  /** Enter a container in the table with a new, still empty copy. */
  lemma OpenOk(source: Heap, heap: Heap, t: Tables, open_: set<Addr>, a: Addr, b: Addr, c: Cell)
    requires MemOk(source, heap, t, open_) && a in source && a !in t.visited && b !in heap
    ensures MemOk(source, heap[b := c], Tables(t.visited[a := b], t.loose), open_ + {a})
    ensures Grow(t, Tables(t.visited[a := b], t.loose))
  {
    hide CellRel, KnownCell, Filled, LooseOk;
    OpenTable(source, heap, t, a, b, c);
    FilledStays(source, heap, t, heap[b := c], Tables(t.visited[a := b], t.loose), open_, open_ + {a});
  }

  lemma LooseAdded(source: Heap, heap: Heap, t: Tables, open_: set<Addr>, b: Addr, c: Cell)
    requires MemOk(source, heap, t, open_) && b !in heap && (c.StrCell? || c == SliceCell(true, []))
    ensures var u := Tables(t.visited, t.loose[b := c]);
            MemOk(source, heap[b := c], u, open_) && Grow(t, u) && IsLoose(u, b, c)
  {
    hide CellRel, KnownCell, Filled;
    FilledStays(source, heap, t, heap[b := c], Tables(t.visited, t.loose[b := c]), open_, open_);
  }

  /** Write into a copy that is still being filled. */
  lemma WriteOk(source: Heap, heap: Heap, t: Tables, open_: set<Addr>, a: Addr, c: Cell)
    requires MemOk(source, heap, t, open_) && a in open_
    ensures MemOk(source, heap[t.visited[a] := c], t, open_)
  {
    hide CellRel, KnownCell, Filled;
    FilledStays(source, heap, t, heap[t.visited[a] := c], t, open_, open_);
  }

  lemma CloseOk(source: Heap, heap: Heap, t: Tables, open_: set<Addr>, a: Addr)
    requires MemOk(source, heap, t, open_ + {a}) && a in t.visited
    requires a !in open_ ==> CellRel(source, t, source[a], heap[t.visited[a]])
    ensures MemOk(source, heap, t, open_)
  {
    hide CellRel, KnownCell;
  }

  lemma SourceCell(source: Heap, heap: Heap, t: Tables, open_: set<Addr>, a: Addr)
    requires MemOk(source, heap, t, open_) && a in source
    ensures a in heap && heap[a] == source[a] && KnownCell(source, source[a])
    ensures a in t.visited ==> t.visited[a] in heap && t.visited[a] !in source
  {
    hide CellRel, KnownCell;
  }

  /** The copy of a container before anything is filled in. */
  function BlankCopy(c: Cell): Cell {
    match c
    case MapCell(generic, _) => MapCell(generic, map[])
    case SliceCell(generic, items) => SliceCell(generic, seq(|items|, _ => Nil(NilOther)))
    case StrCell(strings) => StrCell(strings)
    case PtrCell(_) => PtrCell(Nil(NilOther))
  }

  function Size(v: Val): nat {
    match v
    case Inline(items) => 1 + SizeAll(items)
    case _ => 1
  }

  function SizeAll(items: seq<Val>): nat {
    if items == [] then 0 else Size(items[0]) + SizeAll(items[1..])
  }

  lemma {:induction false} SizeAt(items: seq<Val>, i: nat)
    requires i < |items|
    ensures Size(items[i]) <= SizeAll(items)
  {
    if i > 0 {
      SizeAt(items[1..], i - 1);
    }
  }

  lemma Unvisited(source: Heap, before: map<Addr, Addr>, after: map<Addr, Addr>)
    requires before.Keys <= after.Keys
    ensures |source.Keys - after.Keys| <= |source.Keys - before.Keys|
    ensures forall a :: a in source && a !in before && a in after ==> |source.Keys - after.Keys| < |source.Keys - before.Keys|
  {
    SubsetSize(source.Keys - after.Keys, source.Keys - before.Keys);
    forall a | a in source && a !in before && a in after
      ensures |source.Keys - after.Keys| < |source.Keys - before.Keys|
    {
      SubsetSize(source.Keys - after.Keys, source.Keys - before.Keys - {a});
    }
  }

  lemma OneMoreVisited(source: Heap, visited: map<Addr, Addr>, a: Addr, b: Addr)
    requires a in source && a !in visited
    ensures |source.Keys - visited[a := b].Keys| < |source.Keys - visited.Keys|
  {
    Unvisited(source, visited, visited[a := b]);
    assert a in visited[a := b];
  }

  class Cloner {
    ghost const source: Heap
    var heap: Heap
    var next: Addr
    var visited: map<Addr, Addr>
    ghost var loose: map<Addr, Cell>

    ghost function Table(): Tables
      reads this
    {
      Tables(visited, loose)
    }

    ghost predicate Valid(open_: set<Addr>)
      reads this
    {
      MemOk(source, heap, Table(), open_) && Below(heap, next)
    }

    /** cloneAny starts with an empty table. */
    constructor (heap: Heap, next: Addr)
      requires Closed(heap) && forall b :: b in heap ==> b < next
      ensures Valid({}) && source == heap == this.heap && visited == map[]
    {
      source, this.heap, this.next := heap, heap, next;
      visited, loose := map[], map[];
    }

    method AddLoose(c: Cell, ghost open_: set<Addr>) returns (b: Addr)
      requires Valid(open_) && (c.StrCell? || c == SliceCell(true, []))
      modifies this
      ensures Valid(open_) && Kept(old(heap), old(Table()), heap, Table()) && IsLoose(Table(), b, c)
    {
      hide MemOk;
      LooseAdded(source, heap, Table(), open_, next, c);
      b := next;
      next := next + 1;
      heap := heap[b := c];
      loose := loose[b := c];
    }

    /** cloneAnyValue */
    method CloneAnyValue(v: Val, ghost open_: set<Addr>) returns (w: Val)
      requires Valid(open_) && Known(source, v)
      modifies this
      ensures Valid(open_) && Kept(old(heap), old(Table()), heap, Table()) && Rel(source, Table(), v, w)
      decreases |source.Keys - visited.Keys|, 4 * Size(v) + 3
    {
      hide MemOk;
      match v {
        case Atom(_) =>
          w := v;
        case Nil(kind) =>
          if kind == NilAnySlice {
            var b := AddLoose(SliceCell(true, []), open_);
            w := Ref(b);
          } else {
            w := v;
          }
        case Inline(_) =>
          w := CloneReflectValue(v, open_);
        case Ref(a) =>
          SourceCell(source, heap, Table(), open_, a);
          match heap[a] {
            case MapCell(true, entries) =>
              if entries == map[] {
                w := Nil(NilAnyMap);
              } else {
                w := CloneContainer(a, true, open_);
              }
            case SliceCell(true, _) =>
              w := CloneContainer(a, true, open_);
            case StrCell(strings) =>
              var b := AddLoose(StrCell(strings), open_);
              w := Ref(b);
            case _ =>
              w := CloneReflectValue(v, open_);
          }
      }
    }

    /** cloneReflectValue */
    method CloneReflectValue(v: Val, ghost open_: set<Addr>) returns (w: Val)
      requires Valid(open_) && Known(source, v)
      modifies this
      ensures Valid(open_) && Kept(old(heap), old(Table()), heap, Table()) && Rel(source, Table(), v, w)
      decreases |source.Keys - visited.Keys|, 4 * Size(v) + 2
    {
      hide MemOk;
      match v {
        case Ref(a) =>
          w := CloneContainer(a, false, open_);
        case Inline(items) =>
          var copied := CloneItems(items, open_);
          w := Inline(copied);
        case _ =>
          w := v;
      }
    }

    /** Arrays and structs are rebuilt element by element. */
    method CloneItems(items: seq<Val>, ghost open_: set<Addr>) returns (copied: seq<Val>)
      requires Valid(open_) && forall i :: 0 <= i < |items| ==> Known(source, items[i])
      modifies this
      ensures Valid(open_) && Kept(old(heap), old(Table()), heap, Table()) && |copied| == |items|
      ensures forall i :: 0 <= i < |items| ==> Rel(source, Table(), items[i], copied[i])
      decreases |source.Keys - visited.Keys|, 4 * SizeAll(items) + 3
    {
      hide MemOk, Rel, Known, Size, SizeAll, Kept, Below, Grow;
      copied := [];
      KeptStarts(heap, Table());
      for i := 0 to |items|
        invariant Valid(open_) && Kept(old(heap), old(Table()), heap, Table()) && |copied| == i
        invariant forall j :: 0 <= j < i ==> Rel(source, Table(), items[j], copied[j])
      {
        ghost var heap1, t1 := heap, Table();
        SizeAt(items, i);
        Shrinks(source, old(heap), old(Table()), heap, Table());
        var w := CloneReflectValue(items[i], open_);
        KeptThen(old(heap), old(Table()), heap1, t1, heap, Table());
        CopiesStay(source, heap1, t1, heap, Table(), items, copied);
        copied := copied + [w];
      }
    }

    /** A map, slice or pointer: reuse its copy, or enter a new one in the table before
        filling it, so that cycles come back to it. */
    method CloneContainer(a: Addr, generic: bool, ghost open_: set<Addr>) returns (w: Val)
      requires Valid(open_) && a in source
      modifies this
      ensures Valid(open_) && Kept(old(heap), old(Table()), heap, Table()) && Rel(source, Table(), Ref(a), w)
      decreases |source.Keys - visited.Keys|, 2
    {
      hide MemOk, Rel, CellRel, Kept, KeptBut, Below, Grow, BlankCopy;
      KeptStarts(heap, Table());
      if a in visited {
        RefCopied(source, Table(), a);
        return Ref(visited[a]);
      }
      var out := OpenCopy(a, open_);
      OneMoreVisited(source, old(visited), a, out);
      ghost var heap1, t1 := heap, Table();
      FillCopy(a, out, generic, open_ + {a});
      ContainerKept(old(heap), old(Table()), heap1, t1, heap, Table(), out);
      CloseOk(source, heap, Table(), open_, a);
      RefCopied(source, Table(), a);
      w := Ref(out);
    }

    method OpenCopy(a: Addr, ghost open_: set<Addr>) returns (out: Addr)
      requires Valid(open_) && a in source && a !in visited
      modifies this
      ensures Filling(a, out, open_ + {a}) && Kept(old(heap), old(Table()), heap, Table())
      ensures out !in old(heap) && heap[out] == BlankCopy(source[a])
      ensures visited == old(visited)[a := out]
    {
      hide MemOk, Below, BlankCopy, Kept, Extends, Grow;
      SourceCell(source, heap, Table(), open_, a);
      out := next;
      var blank := BlankCopy(heap[a]);
      Allocated(heap, next, blank);
      OpenOk(source, heap, Table(), open_, a, out, blank);
      KeptBoth(heap, Table(), heap[out := blank], Tables(visited[a := out], loose));
      next := next + 1;
      visited := visited[a := out];
      heap := heap[out := blank];
    }

    /** Fill an entered copy according to the kind of container. */
    method FillCopy(a: Addr, out: Addr, generic: bool, ghost open_: set<Addr>)
      requires Filling(a, out, open_) && heap[out] == BlankCopy(source[a])
      modifies this
      ensures Filling(a, out, open_) && KeptBut(old(heap), old(Table()), heap, Table(), out)
      ensures CellRel(source, Table(), source[a], heap[out])
      decreases |source.Keys - visited.Keys| + 1, 1
    {
      hide MemOk, Kept, KeptBut, Below, Grow, Rel;
      SourceCell(source, heap, Table(), open_, a);
      KeptStarts(heap, Table());
      var cell := heap[a];
      match cell {
        case MapCell(_, _) => FillMap(a, out, generic, open_);
        case SliceCell(_, _) => FillSlice(a, out, generic, open_);
        case StrCell(_) =>
        case PtrCell(_) => FillPtr(a, out, open_);
      }
    }

    ghost predicate Filling(a: Addr, out: Addr, open_: set<Addr>)
      reads this
    {
      Valid(open_) && a in open_ && a in source && a in visited && visited[a] == out && out in heap
    }

    method Write(a: Addr, out: Addr, c: Cell, ghost open_: set<Addr>)
      requires Valid(open_) && a in open_ && a in source && a in visited && visited[a] == out && out in heap
      modifies `heap
      ensures Filling(a, out, open_) && heap == old(heap)[out := c]
    {
      hide MemOk;
      WriteOk(source, heap, Table(), open_, a, c);
      heap := heap[out := c];
    }

    /** `out[k] = cloneAnyValue(v)` or its reflective twin, in any key order. */
    method FillMap(a: Addr, out: Addr, generic: bool, ghost open_: set<Addr>)
      requires Filling(a, out, open_) && source[a].MapCell? && heap[out] == MapCell(source[a].generic, map[])
      modifies this
      ensures Filling(a, out, open_) && KeptBut(old(heap), old(Table()), heap, Table(), out)
      ensures CellRel(source, Table(), source[a], heap[out])
      decreases |source.Keys - visited.Keys| + 1, 0
    {
      hide MemOk, Rel, Known, Kept, KeptBut, Below, Grow;
      SourceCell(source, heap, Table(), open_, a);
      KeptStarts(heap, Table());
      var cell := heap[a];
      var done: map<Leaf, Val> := map[];
      var todo := cell.entries.Keys;
      while todo != {}
        invariant todo <= cell.entries.Keys && done.Keys == cell.entries.Keys - todo
        invariant Filling(a, out, open_) && KeptBut(old(heap), old(Table()), heap, Table(), out)
        invariant heap[out] == MapCell(cell.generic, done)
        invariant forall k :: k in done ==> Rel(source, Table(), cell.entries[k], done[k])
        decreases |todo|
      {
        ghost var heap1, t1 := heap, Table();
        var k :| k in todo;
        todo := todo - {k};
        ShrinksBut(source, old(heap), old(Table()), heap, Table(), out);
        var w;
        if generic {
          w := CloneAnyValue(cell.entries[k], open_);
        } else {
          w := CloneReflectValue(cell.entries[k], open_);
        }
        done := done[k := w];
        EntriesStay(source, heap1, t1, heap, Table(), cell.entries, done, k);
        KeptButThen(old(heap), old(Table()), heap1, t1, heap, Table(), out, MapCell(cell.generic, done));
        Write(a, out, MapCell(cell.generic, done), open_);
      }
    }

    method FillSlice(a: Addr, out: Addr, generic: bool, ghost open_: set<Addr>)
      requires Filling(a, out, open_) && source[a].SliceCell?
      requires heap[out].SliceCell? && heap[out].generic == source[a].generic && |heap[out].items| == |source[a].items|
      modifies this
      ensures Filling(a, out, open_) && KeptBut(old(heap), old(Table()), heap, Table(), out)
      ensures CellRel(source, Table(), source[a], heap[out])
      decreases |source.Keys - visited.Keys| + 1, 0
    {
      hide MemOk, Rel, Known, Kept, KeptBut, Below, Grow;
      SourceCell(source, heap, Table(), open_, a);
      KeptStarts(heap, Table());
      var cell := heap[a];
      for i := 0 to |cell.items|
        invariant Filling(a, out, open_) && KeptBut(old(heap), old(Table()), heap, Table(), out)
        invariant heap[out].SliceCell? && heap[out].generic == cell.generic && |heap[out].items| == |cell.items|
        invariant forall j :: 0 <= j < i ==> Rel(source, Table(), cell.items[j], heap[out].items[j])
      {
        ghost var heap1, t1 := heap, Table();
        ShrinksBut(source, old(heap), old(Table()), heap, Table(), out);
        var w;
        if generic {
          w := CloneAnyValue(cell.items[i], open_);
        } else {
          w := CloneReflectValue(cell.items[i], open_);
        }
        KeptButThen(old(heap), old(Table()), heap1, t1, heap, Table(), out, SliceCell(cell.generic, heap1[out].items[i := w]));
        ghost var items := heap[out].items;
        var filled := SliceCell(cell.generic, heap[out].items[i := w]);
        ItemsStay(source, heap1, t1, heap, Table(), cell.items, items, filled.items, i);
        Write(a, out, filled, open_);
      }
    }

    method FillPtr(a: Addr, out: Addr, ghost open_: set<Addr>)
      requires Filling(a, out, open_) && source[a].PtrCell?
      modifies this
      ensures Filling(a, out, open_) && KeptBut(old(heap), old(Table()), heap, Table(), out)
      ensures CellRel(source, Table(), source[a], heap[out])
      decreases |source.Keys - visited.Keys| + 1, 0
    {
      hide MemOk, Rel, Known, Kept, KeptBut, Below, Grow;
      SourceCell(source, heap, Table(), open_, a);
      KeptStarts(heap, Table());
      ghost var heap1, t1 := heap, Table();
      var w := CloneReflectValue(heap[a].target, open_);
      KeptButThen(old(heap), old(Table()), heap1, t1, heap, Table(), out, PtrCell(w));
      Write(a, out, PtrCell(w), open_);
    }
  }

  lemma Shrinks(source: Heap, heap: Heap, t: Tables, heap': Heap, u: Tables)
    requires Kept(heap, t, heap', u)
    ensures |source.Keys - u.visited.Keys| <= |source.Keys - t.visited.Keys|
  {
    Unvisited(source, t.visited, u.visited);
  }

  lemma ShrinksBut(source: Heap, heap: Heap, t: Tables, heap': Heap, u: Tables, out: Addr)
    requires KeptBut(heap, t, heap', u, out)
    ensures |source.Keys - u.visited.Keys| <= |source.Keys - t.visited.Keys|
  {
    Unvisited(source, t.visited, u.visited);
  }

  lemma ContainerKept(heap: Heap, t: Tables, heap1: Heap, t1: Tables, heap2: Heap, t2: Tables, out: Addr)
    requires Kept(heap, t, heap1, t1) && KeptBut(heap1, t1, heap2, t2, out) && out !in heap
    ensures Kept(heap, t, heap2, t2)
  {
  }

  lemma CopiesStay(source: Heap, heap: Heap, t: Tables, heap': Heap, u: Tables, items: seq<Val>, copied: seq<Val>)
    requires Kept(heap, t, heap', u) && |copied| <= |items|
    requires forall j :: 0 <= j < |copied| ==> Rel(source, t, items[j], copied[j])
    ensures forall j :: 0 <= j < |copied| ==> Rel(source, u, items[j], copied[j])
  {
    hide Rel, Grow;
    forall j | 0 <= j < |copied|
      ensures Rel(source, u, items[j], copied[j])
    {
      RelStays(source, t, u, items[j], copied[j]);
    }
  }

  lemma EntriesStay(source: Heap, heap: Heap, t: Tables, heap': Heap, u: Tables, entries: map<Leaf, Val>, done: map<Leaf, Val>, last: Leaf)
    requires Kept(heap, t, heap', u) && done.Keys <= entries.Keys && last in done
    requires forall k :: k in done && k != last ==> Rel(source, t, entries[k], done[k])
    requires Rel(source, u, entries[last], done[last])
    ensures forall k :: k in done ==> Rel(source, u, entries[k], done[k])
  {
    hide Rel, Grow;
    forall k | k in done && k != last
      ensures Rel(source, u, entries[k], done[k])
    {
      RelStays(source, t, u, entries[k], done[k]);
    }
  }

  lemma ItemsStay(source: Heap, heap: Heap, t: Tables, heap': Heap, u: Tables, items: seq<Val>, before: seq<Val>, after: seq<Val>, i: nat)
    requires Kept(heap, t, heap', u) && i < |items| == |before| == |after| && after == before[i := after[i]]
    requires forall j :: 0 <= j < i ==> Rel(source, t, items[j], before[j])
    requires Rel(source, u, items[i], after[i])
    ensures forall j :: 0 <= j <= i ==> Rel(source, u, items[j], after[j])
  {
    hide Rel, Grow;
    forall j | 0 <= j < i
      ensures Rel(source, u, items[j], after[j])
    {
      RelStays(source, t, u, items[j], before[j]);
      assert after[j] == before[j];
    }
  }

  // ----- what the copy looks like -----

  datatype Tree =
    | Deeper
    | LeafTree(leaf: Leaf)
    | NilTree
    | MapTree(generic: bool, entries: map<Leaf, Tree>)
    | SliceTree(generic: bool, items: seq<Tree>)
    | StrTree(strings: seq<string>)
    | PtrTree(target: Tree)
    | InlineTree(items: seq<Tree>)

  /** Everything a reader can see of a value within `n` steps. An empty generic map and
      a nil one read alike, and so do an empty and a nil generic slice. */
  ghost function Observe(heap: Heap, v: Val, n: nat): Tree
    decreases n
  {
    if n == 0 then Deeper
    else match v
      case Atom(leaf) => LeafTree(leaf)
      case Nil(kind) =>
        if kind == NilAnyMap then MapTree(true, map[])
        else if kind == NilAnySlice then SliceTree(true, []) else NilTree
      case Inline(items) => InlineTree(seq(|items|, i requires 0 <= i < |items| => Observe(heap, items[i], n - 1)))
      case Ref(a) => if a in heap then ObserveCell(heap, heap[a], n - 1) else NilTree
  }

  ghost function ObserveCell(heap: Heap, c: Cell, n: nat): Tree
    decreases n
  {
    match c
    case MapCell(generic, entries) => MapTree(generic, map k | k in entries :: if n == 0 then Deeper else Observe(heap, entries[k], n - 1))
    case SliceCell(generic, items) =>
      SliceTree(generic, seq(|items|, i requires 0 <= i < |items| => if n == 0 then Deeper else Observe(heap, items[i], n - 1)))
    case StrCell(strings) => StrTree(strings)
    case PtrCell(target) => PtrTree(if n == 0 then Deeper else Observe(heap, target, n - 1))
  }

  ghost predicate Finished(source: Heap, heap: Heap, t: Tables) {
    MemOk(source, heap, t, {})
  }

  lemma CopyFinished(source: Heap, heap: Heap, t: Tables, a: Addr)
    requires Finished(source, heap, t) && a in t.visited
    ensures a in source && t.visited[a] in heap && CellRel(source, t, source[a], heap[t.visited[a]])
    ensures KnownCell(source, source[a])
  {
    hide CellRel, KnownCell;
  }

  lemma LooseKept(source: Heap, heap: Heap, t: Tables, b: Addr)
    requires Finished(source, heap, t) && b in t.loose
    ensures b in heap && heap[b] == t.loose[b] && b !in source
    ensures heap[b].StrCell? || heap[b] == SliceCell(true, [])
  {
    hide CellRel, KnownCell;
  }

  /** Source and copy cannot be told apart by any finite observation: they are
      bisimilar, cycles and sharing included. */
  lemma {:induction false} SameObservations(source: Heap, heap: Heap, t: Tables, v: Val, w: Val, n: nat)
    requires Finished(source, heap, t) && Known(source, v) && Rel(source, t, v, w)
    ensures Observe(heap, w, n) == Observe(source, v, n)
    decreases n
  {
    hide Finished, CellRel;
    if n > 0 {
      match v
      case Atom(_) =>
      case Nil(_) =>
        if w != v {
          LooseKept(source, heap, t, w.addr);
        }
      case Inline(items) =>
        forall i | 0 <= i < |items|
          ensures Observe(heap, w.items[i], n - 1) == Observe(source, items[i], n - 1)
        {
          SameObservations(source, heap, t, items[i], w.items[i], n - 1);
        }
      case Ref(a) =>
        if w.Ref? && a in t.visited && t.visited[a] == w.addr {
          CopyFinished(source, heap, t, a);
          SameCells(source, heap, t, source[a], heap[w.addr], n - 1);
        } else if w.Ref? {
          LooseKept(source, heap, t, w.addr);
        }
    }
  }

  lemma {:induction false} SameCells(source: Heap, heap: Heap, t: Tables, c: Cell, d: Cell, n: nat)
    requires Finished(source, heap, t) && KnownCell(source, c) && CellRel(source, t, c, d)
    ensures ObserveCell(heap, d, n) == ObserveCell(source, c, n)
    decreases n
  {
    hide Finished, Rel, Known, Observe;
    if n > 0 {
      match c
      case MapCell(_, entries) =>
        forall k | k in entries
          ensures Observe(heap, d.entries[k], n - 1) == Observe(source, entries[k], n - 1)
        {
          SameObservations(source, heap, t, entries[k], d.entries[k], n - 1);
        }
      case SliceCell(_, items) =>
        forall i | 0 <= i < |items|
          ensures Observe(heap, d.items[i], n - 1) == Observe(source, items[i], n - 1)
        {
          SameObservations(source, heap, t, items[i], d.items[i], n - 1);
        }
      case StrCell(_) =>
      case PtrCell(target) => SameObservations(source, heap, t, target, d.target, n - 1);
    }
  }

  // ----- what the copy is made of -----

  predicate IsChild(c: Cell, v: Val) {
    match c
    case MapCell(_, entries) => exists k :: k in entries && entries[k] == v
    case SliceCell(_, items) => v in items
    case StrCell(_) => false
    case PtrCell(target) => v == target
  }

  /** The container `b` can be reached from a value in at most `n` steps. */
  ghost predicate Reaches(heap: Heap, v: Val, n: nat, b: Addr)
    decreases n
  {
    match v
    case Ref(a) => a == b || (n > 0 && a in heap && exists c :: IsChild(heap[a], c) && Reaches(heap, c, n - 1, b))
    case Inline(items) => n > 0 && exists i :: 0 <= i < |items| && Reaches(heap, items[i], n - 1, b)
    case _ => false
  }

  lemma ChildOrigin(source: Heap, t: Tables, c: Cell, d: Cell, w: Val) returns (v: Val)
    requires CellRel(source, t, c, d) && KnownCell(source, c) && IsChild(d, w)
    ensures Known(source, v) && Rel(source, t, v, w)
  {
    hide Rel, Known;
    match d
    case MapCell(_, entries) =>
      var k :| k in entries && entries[k] == w;
      v := c.entries[k];
    case SliceCell(_, items) =>
      var i :| 0 <= i < |items| && items[i] == w;
      v := c.items[i];
    case PtrCell(_) =>
      v := c.target;
  }

  /** No mutable container reachable from the copy belongs to the source. */
  lemma {:induction false} NothingShared(source: Heap, heap: Heap, t: Tables, v: Val, w: Val, n: nat, b: Addr)
    requires Finished(source, heap, t) && Known(source, v) && Rel(source, t, v, w) && Reaches(heap, w, n, b)
    ensures b !in source
    decreases n
  {
    hide Finished, CellRel, KnownCell;
    match w
    case Ref(a') =>
      if v.Ref? && v.addr in t.visited && t.visited[v.addr] == a' {
        CopyFinished(source, heap, t, v.addr);
        CopyIsNew(source, heap, t, v.addr);
        if a' != b {
          var child :| IsChild(heap[a'], child) && Reaches(heap, child, n - 1, b);
          var origin := ChildOrigin(source, t, source[v.addr], heap[a'], child);
          NothingShared(source, heap, t, origin, child, n - 1, b);
        }
      } else {
        LooseKept(source, heap, t, a');
      }
    case Inline(items) =>
      var i :| 0 <= i < |items| && Reaches(heap, items[i], n - 1, b);
      NothingShared(source, heap, t, v.items[i], items[i], n - 1, b);
    case _ =>
  }

  lemma CopyIsNew(source: Heap, heap: Heap, t: Tables, a: Addr)
    requires Finished(source, heap, t) && a in t.visited
    ensures t.visited[a] !in source
  {
    hide CellRel, KnownCell;
  }

  /** Sharing survives: one tracked container has one copy, and two have two. */
  lemma SharingKept(source: Heap, heap: Heap, t: Tables, a: Addr, b: Addr, x: Addr, y: Addr)
    requires Finished(source, heap, t) && Rel(source, t, Ref(a), Ref(x)) && Rel(source, t, Ref(b), Ref(y))
    requires !source[a].StrCell? && !source[b].StrCell?
    ensures x == y <==> a == b
  {
    hide CellRel, KnownCell, IsLoose;
  }

  lemma AllFinished(source: Heap, heap: Heap, t: Tables, v: Val, w: Val)
    requires MemOk(source, heap, t, {}) && Known(source, v) && Rel(source, t, v, w)
    ensures forall a :: a in source ==> a in heap && heap[a] == source[a]
    ensures forall n: nat :: Observe(heap, w, n) == Observe(source, v, n)
    ensures forall n: nat, b :: Reaches(heap, w, n, b) ==> b !in source
  {
    assert Intact(source, heap);
    hide MemOk, Known, Rel, Observe, Reaches;
    assert Finished(source, heap, t) by {
      Finishes(source, heap, t);
    }
    forall n: nat
      ensures Observe(heap, w, n) == Observe(source, v, n)
    {
      SameObservations(source, heap, t, v, w, n);
    }
    forall n: nat, b | Reaches(heap, w, n, b)
      ensures b !in source
    {
      NothingShared(source, heap, t, v, w, n, b);
    }
  }

  lemma Finishes(source: Heap, heap: Heap, t: Tables)
    requires MemOk(source, heap, t, {})
    ensures Finished(source, heap, t)
  {
    hide MemOk;
  }

  /** cloneAny: the copy terminates on every finite graph, reads like the source at any
      depth, shares no container with it, and leaves it alone. */
  method CloneAny(source: Heap, next: Addr, v: Val) returns (heap: Heap, w: Val)
    requires Closed(source) && Known(source, v) && forall a :: a in source ==> a < next
    ensures forall a :: a in source ==> a in heap && heap[a] == source[a]
    ensures forall n: nat :: Observe(heap, w, n) == Observe(source, v, n)
    ensures forall n: nat, b :: Reaches(heap, w, n, b) ==> b !in source
  {
    hide MemOk, Known, Rel, Observe, Reaches, KnownCell, Kept;
    var cloner := new Cloner(source, next);
    w := cloner.CloneAnyValue(v, {});
    heap := cloner.heap;
    AllFinished(source, heap, cloner.Table(), v, w);
  }
}
