/**
 * `ElaborationContext` (amigen.py:232-271): the parent-linked environment each
 * element is elaborated in. A context is modelled as the immutable sequence of
 * its frames, the element's own frame first, then its parent's, up to the root.
 */
module Contexts {
  import opened Wrappers
  import opened Keys

  /** Python object identity. */
  type ObjId = nat

  /** What a context records of its element: identity, class, name and key. */
  datatype ElemInfo = ElemInfo(oid: ObjId, cls: string, name: string, key: Option<Key>)

  /** One `ElaborationContext` object without its parent link. */
  datatype Frame = Frame(elem: ElemInfo, visible: bool)

  /** `ctx[0]` is the context itself, `ctx[i + 1]` the parent of `ctx[i]`. */
  type Context = seq<Frame>

  /** A class and the names of all its subclasses, for `isinstance`. */
  datatype ClassRef = ClassRef(name: string, subclasses: set<string>)

  predicate IsInstance(cls: string, c: ClassRef)
  {
    cls == c.name || cls in c.subclasses
  }

  /** What `find` (by class) and `find_by_key` (by key) look for. */
  datatype Query = OfClass(c: ClassRef) | WithKey(key: Option<Key>)

  /** The test inside both search loops: the element matches and the frame is visible. */
  predicate Matches(f: Frame, q: Query)
  {
    && (match q
        case OfClass(c) => IsInstance(f.elem.cls, c)
        case WithKey(k) => ElementKeyEquals(f.elem.key, k))
    && f.visible
  }

  /** `r` is the nearest strict ancestor of `ctx[0]` that matches `q`, or `None` when there is none. */
  ghost predicate NearestMatch(ctx: Context, q: Query, r: Option<nat>)
  {
    match r
    case Some(i) => 1 <= i < |ctx| && Matches(ctx[i], q) && forall j :: 1 <= j < i ==> !Matches(ctx[j], q)
    case None => forall j :: 1 <= j < |ctx| ==> !Matches(ctx[j], q)
  }

  /** The search loop, standing at `ctx[i]`: step to the parent and test it, until the root is passed. */
  function SearchFrom(ctx: Context, q: Query, i: nat): (r: Option<nat>)
    requires i < |ctx|
    ensures r.Some? ==> i < r.value < |ctx| && Matches(ctx[r.value], q)
    ensures r.Some? ==> forall j :: i < j < r.value ==> !Matches(ctx[j], q)
    ensures r.None? ==> forall j :: i < j < |ctx| ==> !Matches(ctx[j], q)
    decreases |ctx| - i
  {
    if i + 1 == |ctx| then None
    else if Matches(ctx[i + 1], q) then Some(i + 1)
    else SearchFrom(ctx, q, i + 1)
  }

  /** The ancestor a search finds, as its distance from the context itself. */
  function Lookup(ctx: Context, q: Query): (r: Option<nat>)
    requires |ctx| > 0
    ensures NearestMatch(ctx, q, r)
  {
    SearchFrom(ctx, q, 0)
  }

  /** `context.find(cls)`: never the context's own element; the nearest visible ancestor that is an instance of `cls`. */
  function Find(ctx: Context, cls: ClassRef): (r: Option<nat>)
    requires |ctx| > 0
    ensures r.Some? ==> 1 <= r.value < |ctx| && ctx[r.value].visible && IsInstance(ctx[r.value].elem.cls, cls)
    ensures r.Some? ==> forall j :: 1 <= j < r.value ==> !(ctx[j].visible && IsInstance(ctx[j].elem.cls, cls))
    ensures r.None? <==> forall j :: 1 <= j < |ctx| ==> !(ctx[j].visible && IsInstance(ctx[j].elem.cls, cls))
  {
    Lookup(ctx, OfClass(cls))
  }

  /** `context.find_by_key(key)`: the nearest visible strict ancestor whose key equals `key`. */
  function FindByKey(ctx: Context, key: Option<Key>): (r: Option<nat>)
    requires |ctx| > 0
    ensures r.Some? ==> 1 <= r.value < |ctx| && ctx[r.value].visible && ctx[r.value].elem.key == key
    ensures r.Some? ==> forall j :: 1 <= j < r.value ==> !(ctx[j].visible && ctx[j].elem.key == key)
    ensures r.None? <==> forall j :: 1 <= j < |ctx| ==> !(ctx[j].visible && ctx[j].elem.key == key)
  {
    var r := Lookup(ctx, WithKey(key));
    forall j | 0 <= j < |ctx| ensures Matches(ctx[j], WithKey(key)) <==> ctx[j].visible && ctx[j].elem.key == key {
      ElementKeyEqualsIsEquality(ctx[j].elem.key, key);
    }
    r
  }

  /** `context.path()`: the element's own name, then each ancestor's name up to the root. */
  function Path(ctx: Context): (r: seq<string>)
    ensures |r| == |ctx|
    ensures forall i :: 0 <= i < |ctx| ==> r[i] == ctx[i].elem.name
  {
    if ctx == [] then [] else [ctx[0].elem.name] + Path(ctx[1..])
  }

  /** `reversed(...)` */
  function Reverse<T>(s: seq<T>): (r: seq<T>)
    ensures |r| == |s|
    ensures forall i :: 0 <= i < |s| ==> r[i] == s[|s| - 1 - i]
  {
    if s == [] then [] else Reverse(s[1..]) + [s[0]]
  }

  /** `"/".join(parts)` */
  function JoinSlash(parts: seq<string>): string
  {
    if |parts| == 0 then ""
    else if |parts| == 1 then parts[0]
    else JoinSlash(parts[..|parts| - 1]) + "/" + parts[|parts| - 1]
  }

  /** `"/".join(reversed(list(context.path())))`: the names from the root down to the element. */
  function ScopeName(ctx: Context): string
  {
    JoinSlash(Reverse(Path(ctx)))
  }

  /** The root's scope name is its own name. */
  lemma ScopeNameOfRoot(f: Frame)
    ensures ScopeName([f]) == f.elem.name
  {
    assert Reverse(Path([f])) == [f.elem.name];
  }

  /** A child's scope name extends its parent's by `/` and the child's name. */
  lemma ScopeNameOfChild(f: Frame, ctx: Context)
    requires |ctx| > 0
    ensures ScopeName([f] + ctx) == ScopeName(ctx) + "/" + f.elem.name
  {
    var p := Path(ctx);
    assert Path([f] + ctx) == [f.elem.name] + p;
    var r := Reverse(p);
    assert Reverse([f.elem.name] + p) == r + [f.elem.name];
    assert (r + [f.elem.name])[..|r|] == r;
  }

  /** `_copy_invisible`: the same context with `visible` off. */
  function CopyInvisible(ctx: Context): (r: Context)
    requires |ctx| > 0
    ensures |r| == |ctx| && r[0].elem == ctx[0].elem && !r[0].visible && r[1..] == ctx[1..]
  {
    [ctx[0].(visible := false)] + ctx[1..]
  }

  /** Making a context invisible does not change its path. */
  lemma PathOfCopyInvisible(ctx: Context)
    requires |ctx| > 0
    ensures Path(CopyInvisible(ctx)) == Path(ctx)
  {
  }

  function Shift(r: Option<nat>, k: nat): Option<nat>
  {
    match r
    case None => None
    case Some(i) => Some(i + k)
  }

  /**
   * A search from a context below an invisible copy of `ctx`, that finds nothing
   * on the way up to it, finds exactly what a search from `ctx` itself finds:
   * the copied element is skipped, every ancestor above it is still searched.
   */
  lemma {:induction false} LookupThroughHidden(below: Context, ctx: Context, q: Query)
    requires |below| > 0 && |ctx| > 0
    requires forall j :: 1 <= j < |below| ==> !Matches(below[j], q)
    ensures Lookup(below + CopyInvisible(ctx), q) == Shift(Lookup(ctx, q), |below|)
  {
    var c := below + CopyInvisible(ctx);
    var k := |below|;
    assert forall j :: 0 <= j < |ctx| ==> c[k + j] == CopyInvisible(ctx)[j];
    assert !Matches(c[k], q);
    assert forall j :: 1 <= j < |ctx| ==> c[k + j] == ctx[j];
    var expected := Shift(Lookup(ctx, q), k);
    assert NearestMatch(c, q, expected) by {
      match Lookup(ctx, q)
      case None =>
        forall j | 1 <= j < |c| ensures !Matches(c[j], q) {
          if j > k { assert c[j] == ctx[j - k]; }
        }
      case Some(i) =>
        forall j | 1 <= j < i + k ensures !Matches(c[j], q) {
          if j > k { assert c[j] == ctx[j - k]; }
        }
    }
    NearestMatchUnique(c, q, Lookup(c, q), expected);
  }

  /**
   * A search from a context below `ctx` itself, that finds nothing on the way up
   * to it, finds `ctx`'s element when that matches, and otherwise what a search
   * from `ctx` finds.
   */
  lemma {:induction false} LookupThroughVisible(below: Context, ctx: Context, q: Query)
    requires |below| > 0 && |ctx| > 0
    requires forall j :: 1 <= j < |below| ==> !Matches(below[j], q)
    ensures Lookup(below + ctx, q) == if Matches(ctx[0], q) then Some(|below|) else Shift(Lookup(ctx, q), |below|)
  {
    var c := below + ctx;
    var k := |below|;
    assert forall j :: 0 <= j < |ctx| ==> c[k + j] == ctx[j];
    var expected := if Matches(ctx[0], q) then Some(k) else Shift(Lookup(ctx, q), k);
    assert NearestMatch(c, q, expected) by {
      if !Matches(ctx[0], q) {
        match Lookup(ctx, q)
        case None =>
          forall j | 1 <= j < |c| ensures !Matches(c[j], q) {
            if j >= k { assert c[j] == ctx[j - k]; }
          }
        case Some(i) =>
          forall j | 1 <= j < i + k ensures !Matches(c[j], q) {
            if j >= k { assert c[j] == ctx[j - k]; }
          }
      }
    }
    NearestMatchUnique(c, q, Lookup(c, q), expected);
  }

  /** The nearest match is unique. */
  lemma NearestMatchUnique(ctx: Context, q: Query, r1: Option<nat>, r2: Option<nat>)
    requires NearestMatch(ctx, q, r1) && NearestMatch(ctx, q, r2)
    ensures r1 == r2
  {
  }
}
