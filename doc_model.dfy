/** The part of the host editor's model that the ghost-text plugin reads and
    writes: one flat run of inline items, the document selection, the
    attributes of the selection, and whether the document has a root.

    Positions follow the host's live selection, which the plugin only ever
    collapses: inserting `n` items at `p` moves a collapsed selection at or
    after `p` forward by `n`, and removing the item at `k` moves one after
    `k` back by one. The ends of a selection that is not collapsed are
    shifted the same way, which is a simplification of the host's sticky
    range ends. */
module DocModel {
  import opened Wrappers

  /** An inline item: a character of text with the names of the attributes set
      on it, or a `ghostText` element with its `data-value` and `loading`
      attributes. */
  datatype Item =
    | Char(c: char, attrs: set<string>)
    | Ghost(dataValue: Option<string>, loading: bool)

  datatype Selection = NoSelection | Range(anchor: nat, focus: nat)

  datatype Doc = Doc(items: seq<Item>, sel: Selection, attrs: set<string>, hasRoot: bool)

  /** What a command leaves behind when it may throw part-way. */
  datatype Edit = Edit(doc: Doc, threw: bool)

  predicate WellFormed(d: Doc) {
    match d.sel
    case NoSelection => true
    case Range(a, f) => a <= |d.items| && f <= |d.items|
  }

  /** `selection.getFirstPosition()`: the earlier end of the selection. */
  function FirstPosition(d: Doc): (r: Option<nat>)
    ensures r.Some? <==> d.sel.Range?
    ensures r.Some? ==> r.value <= d.sel.anchor && r.value <= d.sel.focus
    ensures r.Some? ==> r.value == d.sel.anchor || r.value == d.sel.focus
  {
    match d.sel
    case NoSelection => None
    case Range(a, f) => Some(if a <= f then a else f)
  }

  /** `selection.isCollapsed`: anchor and focus coincide, so the focus is
      also the first position. */
  predicate IsCollapsed(d: Doc)
    ensures IsCollapsed(d) ==> d.sel.Range? && FirstPosition(d) == Some(d.sel.focus)
  {
    d.sel.Range? && d.sel.anchor == d.sel.focus
  }

  /** `selection.focus.nodeAfter`. */
  function NodeAfter(d: Doc): (r: Option<Item>)
    ensures r.Some? <==> d.sel.Range? && d.sel.focus < |d.items|
    ensures r.Some? ==> r.value == d.items[d.sel.focus]
  {
    if d.sel.Range? && d.sel.focus < |d.items| then Some(d.items[d.sel.focus]) else None
  }

  /** `isGhostText`: the node exists and is a `ghostText` element. */
  predicate IsGhostText(node: Option<Item>)
    ensures node.None? ==> !IsGhostText(node)
    ensures node.Some? ==> (IsGhostText(node) <==> node.value.Ghost?)
  {
    node.Some? && node.value.Ghost?
  }

  function GhostCount(items: seq<Item>): nat {
    if items == [] then 0
    else (if items[0].Ghost? then 1 else 0) + GhostCount(items[1..])
  }

  /** The committed content: every item that is not a ghost, in order. */
  function NonGhosts(items: seq<Item>): (r: seq<Item>)
    ensures |r| + GhostCount(items) == |items|
    ensures forall i :: 0 <= i < |r| ==> !r[i].Ghost?
  {
    if items == [] then []
    else (if items[0].Ghost? then [] else [items[0]]) + NonGhosts(items[1..])
  }

  lemma {:induction false} GhostCountConcat(a: seq<Item>, b: seq<Item>)
    ensures GhostCount(a + b) == GhostCount(a) + GhostCount(b)
  {
    if a == [] {
      assert a + b == b;
    } else {
      assert (a + b)[1..] == a[1..] + b;
      GhostCountConcat(a[1..], b);
    }
  }

  lemma {:induction false} NonGhostsConcat(a: seq<Item>, b: seq<Item>)
    ensures NonGhosts(a + b) == NonGhosts(a) + NonGhosts(b)
  {
    if a == [] {
      assert a + b == b;
    } else {
      assert (a + b)[1..] == a[1..] + b;
      NonGhostsConcat(a[1..], b);
    }
  }

  lemma {:induction false} NoGhostsIff(items: seq<Item>)
    ensures GhostCount(items) == 0 <==> forall i :: 0 <= i < |items| ==> !items[i].Ghost?
  {
    if items != [] {
      NoGhostsIff(items[1..]);
      assert forall i :: 0 < i < |items| ==> items[i] == items[1..][i - 1];
    }
  }

  /** The index of the first `ghostText` element in document order. */
  function FirstGhost(items: seq<Item>): (r: Option<nat>)
    ensures r.Some? ==> r.value < |items| && items[r.value].Ghost?
    ensures r.Some? ==> forall j :: 0 <= j < r.value ==> !items[j].Ghost?
    ensures r.None? ==> forall j :: 0 <= j < |items| ==> !items[j].Ghost?
  {
    if items == [] then None
    else if items[0].Ghost? then Some(0)
    else match FirstGhost(items[1..])
      case None => None
      case Some(k) => Some(k + 1)
  }

  lemma FirstGhostNoneIff(items: seq<Item>)
    ensures FirstGhost(items).None? <==> GhostCount(items) == 0
  {
    NoGhostsIff(items);
  }

  function ShiftedByInsert(q: nat, p: nat, n: nat): nat {
    if p <= q then q + n else q
  }

  function ShiftedByRemove(q: nat, k: nat): nat {
    if k < q then q - 1 else q
  }

  /** A slice equal to `xs` holds the items of `xs`, index by index. */
  lemma ItemsAt(items: seq<Item>, p: nat, xs: seq<Item>)
    requires p + |xs| <= |items| && items[p..p + |xs|] == xs
    ensures forall i :: 0 <= i < |xs| ==> items[p + i] == xs[i]
  {
    forall i | 0 <= i < |xs|
      ensures items[p + i] == xs[i]
    {
      assert items[p..p + |xs|][i] == items[p + i];
    }
  }

  /** Writing the same index twice keeps only the second write. */
  lemma UpdateTwice(xs: seq<Item>, p: nat, a: Item, b: Item)
    requires p < |xs|
    ensures xs[p := a][p := b] == xs[p := b]
  {
  }

  /** The two ends of `a + xs + b` around its middle part. */
  lemma SpliceEnds(a: seq<Item>, xs: seq<Item>, b: seq<Item>)
    ensures (a + xs + b)[..|a|] == a && (a + xs + b)[..|a| + |xs|] == a + xs
    ensures (a + xs + b)[|a| + |xs|..] == b
    ensures |b| > 0 ==> (a + xs + b)[|a| + |xs|] == b[0] && (a + xs + b)[|a| + |xs| + 1..] == b[1..]
  {
  }

  /** `writer.insert(xs, p)`: the items go in at `p`, and the selection
      follows the content it was next to. */
  function InsertAt(d: Doc, p: nat, xs: seq<Item>): (r: Doc)
    requires WellFormed(d) && p <= |d.items|
    ensures WellFormed(r)
    ensures r.items == d.items[..p] + xs + d.items[p..]
    ensures r.sel.Range? == d.sel.Range? && r.attrs == d.attrs && r.hasRoot == d.hasRoot
    ensures r.sel.Range? ==> r.sel.anchor == ShiftedByInsert(d.sel.anchor, p, |xs|)
    ensures r.sel.Range? ==> r.sel.focus == ShiftedByInsert(d.sel.focus, p, |xs|)
  {
    var sel := match d.sel
      case NoSelection => NoSelection
      case Range(a, f) => Range(ShiftedByInsert(a, p, |xs|), ShiftedByInsert(f, p, |xs|));
    Doc(d.items[..p] + xs + d.items[p..], sel, d.attrs, d.hasRoot)
  }

  /** An insertion adds the ghosts of `xs` and splices its committed items in. */
  lemma InsertAtCounts(d: Doc, p: nat, xs: seq<Item>)
    requires WellFormed(d) && p <= |d.items|
    ensures GhostCount(InsertAt(d, p, xs).items) == GhostCount(d.items) + GhostCount(xs)
    ensures NonGhosts(InsertAt(d, p, xs).items) == NonGhosts(d.items[..p]) + NonGhosts(xs) + NonGhosts(d.items[p..])
  {
    var a, b := d.items[..p], d.items[p..];
    assert d.items == a + b;
    GhostCountConcat(a, b);
    GhostCountConcat(a + xs, b);
    GhostCountConcat(a, xs);
    NonGhostsConcat(a + xs, b);
    NonGhostsConcat(a, xs);
  }

  /** `writer.remove(item)` for the item at index `k`. */
  function RemoveAt(d: Doc, k: nat): (r: Doc)
    requires WellFormed(d) && k < |d.items|
    ensures WellFormed(r)
    ensures |r.items| == |d.items| - 1
    ensures r.items == d.items[..k] + d.items[k + 1..]
    ensures GhostCount(r.items) + (if d.items[k].Ghost? then 1 else 0) == GhostCount(d.items)
    ensures d.items[k].Ghost? ==> NonGhosts(r.items) == NonGhosts(d.items)
    ensures r.sel.Range? == d.sel.Range? && r.attrs == d.attrs && r.hasRoot == d.hasRoot
    ensures r.sel.Range? ==> r.sel.anchor == ShiftedByRemove(d.sel.anchor, k)
    ensures r.sel.Range? ==> r.sel.focus == ShiftedByRemove(d.sel.focus, k)
  {
    var sel := match d.sel
      case NoSelection => NoSelection
      case Range(a, f) => Range(ShiftedByRemove(a, k), ShiftedByRemove(f, k));
    RemovedCounts(d.items, k);
    Doc(d.items[..k] + d.items[k + 1..], sel, d.attrs, d.hasRoot)
  }

  lemma {:induction false} SingletonCounts(x: Item)
    ensures GhostCount([x]) == if x.Ghost? then 1 else 0
    ensures NonGhosts([x]) == if x.Ghost? then [] else [x]
  {
    assert [x][1..] == [];
  }

  lemma {:induction false} RemovedCounts(items: seq<Item>, k: nat)
    requires k < |items|
    ensures GhostCount(items[..k] + items[k + 1..]) + (if items[k].Ghost? then 1 else 0) == GhostCount(items)
    ensures items[k].Ghost? ==> NonGhosts(items[..k] + items[k + 1..]) == NonGhosts(items)
  {
    var a, x, b := items[..k], items[k], items[k + 1..];
    assert items == a + ([x] + b);
    GhostCountConcat(a, [x] + b);
    GhostCountConcat([x], b);
    GhostCountConcat(a, b);
    NonGhostsConcat(a, [x] + b);
    NonGhostsConcat([x], b);
    NonGhostsConcat(a, b);
    SingletonCounts(x);
  }

  /** `writer.setSelection(p)`: a collapsed selection at `p`. */
  function SetSelection(d: Doc, p: nat): (r: Doc)
    requires p <= |d.items|
    ensures WellFormed(r) && IsCollapsed(r) && r.sel.focus == p
    ensures r.items == d.items && r.attrs == d.attrs && r.hasRoot == d.hasRoot
  {
    Doc(d.items, Range(p, p), d.attrs, d.hasRoot)
  }

  /** Insert the ghost `g` at the focus and put the selection back at that
      position, the way both ghost-inserting commands do. */
  function PlaceGhost(d: Doc, g: Item): (r: Doc)
    requires WellFormed(d) && d.sel.Range? && g.Ghost?
    ensures WellFormed(r) && IsCollapsed(r) && r.sel.focus == d.sel.focus
    ensures r.items == d.items[..d.sel.focus] + [g] + d.items[d.sel.focus..]
    ensures r.items[r.sel.focus] == g
    ensures GhostCount(r.items) == GhostCount(d.items) + 1
    ensures NonGhosts(r.items) == NonGhosts(d.items)
    ensures r.attrs == d.attrs && r.hasRoot == d.hasRoot
  {
    var p := d.sel.focus;
    var a, b := d.items[..p], d.items[p..];
    var r := SetSelection(InsertAt(d, p, [g]), p);
    SingletonCounts(g);
    InsertAtCounts(d, p, [g]);
    assert d.items == a + b;
    NonGhostsConcat(a, b);
    assert NonGhosts(a) + [] == NonGhosts(a);
    assert (a + [g] + b)[|a|] == g;
    r
  }

  /** A single ghost, equal to `g`, sits right after a collapsed selection. */
  predicate GhostAtCursor(d: Doc, g: Item) {
    g.Ghost? && WellFormed(d) && IsCollapsed(d) && d.sel.focus < |d.items|
    && d.items[d.sel.focus] == g && GhostCount(d.items) == 1
  }

  /** The editor's model document, which the commands change through the writer. */
  class EditorModel {
    var doc: Doc

    ghost predicate Valid()
      reads this
    {
      WellFormed(doc)
    }

    constructor (d: Doc)
      requires WellFormed(d)
      ensures Valid() && doc == d
    {
      doc := d;
    }

    method Insert(p: nat, xs: seq<Item>)
      requires Valid() && p <= |doc.items|
      modifies this
      ensures Valid() && doc == InsertAt(old(doc), p, xs)
    {
      doc := InsertAt(doc, p, xs);
    }

    method Remove(k: nat)
      requires Valid() && k < |doc.items|
      modifies this
      ensures Valid() && doc == RemoveAt(old(doc), k)
    {
      doc := RemoveAt(doc, k);
    }

    method SetSelectionAt(p: nat)
      requires Valid() && p <= |doc.items|
      modifies this
      ensures Valid() && doc == SetSelection(old(doc), p)
    {
      doc := SetSelection(doc, p);
    }
  }
}
