/** Pure model of the layer stack: one sequence of layer handles split by an
    insert index into the regular layers (the prefix, in push order) and the
    overlays (the suffix, in push order), so that every overlay comes after
    every regular layer.  Layers are opaque handles compared by identity.
    What the attach and detach hooks of a layer do is outside the model;
    only their calls are recorded, in a log of hook calls. */
module LayerStackModel {

  /** A layer handle; two handles are the same layer exactly when equal. */
  type LayerId = nat

  /** A call of a layer's attach or detach hook. */
  datatype Hook = OnAttach(layer: LayerId) | OnDetach(layer: LayerId)

  datatype Stack = Stack(layers: seq<LayerId>, insertIndex: nat, hooks: seq<Hook>)

  /** The insert index lies within the sequence. */
  predicate Valid(s: Stack) {
    s.insertIndex <= |s.layers|
  }

  /** The regular layers: the band before the insert index. */
  function Regular(s: Stack): seq<LayerId>
    requires Valid(s)
  {
    s.layers[..s.insertIndex]
  }

  /** The overlays: the band from the insert index on. */
  function Overlays(s: Stack): seq<LayerId>
    requires Valid(s)
  {
    s.layers[s.insertIndex..]
  }

  /** A freshly constructed stack: no layers and no hook calls. */
  const Empty := Stack([], 0, [])

  /** The linear search over s[lo..hi): the first position holding x, or hi
      when there is none. */
  function Find(s: seq<LayerId>, lo: nat, hi: nat, x: LayerId): (r: nat)
    requires lo <= hi <= |s|
    ensures lo <= r <= hi
    ensures r < hi ==> s[r] == x
    ensures forall j :: lo <= j < r ==> s[j] != x
    ensures r == hi <==> x !in s[lo..hi]
    decreases hi - lo
  {
    if lo == hi then hi
    else if s[lo] == x then lo
    else
      assert s[lo..hi] == [s[lo]] + s[lo + 1..hi];
      Find(s, lo + 1, hi, x)
  }

  /** Reference definition of erasing the first occurrence of x, by
      recursion over the sequence; a sequence without x is left alone. */
  function RemoveFirst(s: seq<LayerId>, x: LayerId): seq<LayerId>
    decreases |s|
  {
    if s == [] then []
    else if s[0] == x then s[1..]
    else [s[0]] + RemoveFirst(s[1..], x)
  }

  /** Erasing the first occurrence removes exactly one copy of x when there
      is one, and nothing otherwise. */
  lemma {:induction false} RemoveFirstCount(s: seq<LayerId>, x: LayerId)
    ensures x in s ==> multiset(RemoveFirst(s, x)) == multiset(s) - multiset{x}
    ensures x !in s ==> RemoveFirst(s, x) == s
    decreases |s|
  {
    if s != [] {
      assert s == [s[0]] + s[1..];
      if s[0] != x {
        RemoveFirstCount(s[1..], x);
      }
    }
  }

  /** Cutting out position i, where i is the first position holding x, is
      erasing the first occurrence of x; the survivors keep their order. */
  lemma {:induction false} RemoveFirstIsSplice(s: seq<LayerId>, x: LayerId, i: nat)
    requires i < |s| && s[i] == x
    requires forall j :: 0 <= j < i ==> s[j] != x
    ensures RemoveFirst(s, x) == s[..i] + s[i + 1..]
    decreases i
  {
    if i > 0 {
      RemoveFirstIsSplice(s[1..], x, i - 1);
      assert s[1..][..i - 1] == s[1..i] && s[1..][i..] == s[i + 1..];
      assert s[..i] == [s[0]] + s[1..i];
    }
  }

  /** Cutting out position i of a sequence shortens its prefix of length m
      (where i < m) by that position and keeps the rest after it. */
  lemma SpliceInPrefix(a: seq<LayerId>, i: nat, m: nat)
    requires i < m <= |a|
    ensures (a[..i] + a[i + 1..])[..m - 1] == a[..m][..i] + a[..m][i + 1..]
    ensures (a[..i] + a[i + 1..])[m - 1..] == a[m..]
  {
    assert a[..m][..i] == a[..i];
    assert a[..m][i + 1..] == a[i + 1..m];
  }

  /** PushLayer(l): l is inserted at the insert index, which then moves past
      it, and l's attach hook is called once. */
  function PushLayer(s: Stack, l: LayerId): (r: Stack)
    requires Valid(s)
    ensures Valid(r)
    ensures Regular(r) == Regular(s) + [l] && Overlays(r) == Overlays(s)
    ensures r.hooks == s.hooks + [OnAttach(l)]
  {
    var i := s.insertIndex;
    var r := Stack(s.layers[..i] + [l] + s.layers[i..], i + 1, s.hooks + [OnAttach(l)]);
    assert r.layers[..r.insertIndex] == s.layers[..i] + [l];
    r
  }

  /** PushOverlay(o): o is appended after everything else; no hook is
      called. */
  function PushOverlay(s: Stack, o: LayerId): (r: Stack)
    requires Valid(s)
    ensures Valid(r)
    ensures Regular(r) == Regular(s) && Overlays(r) == Overlays(s) + [o]
    ensures r.hooks == s.hooks
  {
    var r := s.(layers := s.layers + [o]);
    assert r.layers[..s.insertIndex] == s.layers[..s.insertIndex];
    r
  }

  /** PopLayer(l): only the regular layers are searched.  When l is among
      them its first occurrence is erased, the insert index moves back over
      it and l's detach hook is called; otherwise nothing changes, even when
      l is an overlay. */
  function PopLayer(s: Stack, l: LayerId): (r: Stack)
    requires Valid(s)
    ensures Valid(r)
    ensures l in Regular(s) ==>
      Regular(r) == RemoveFirst(Regular(s), l) && Overlays(r) == Overlays(s) &&
      r.hooks == s.hooks + [OnDetach(l)]
    ensures l !in Regular(s) ==> r == s
  {
    var i := Find(s.layers, 0, s.insertIndex, l);
    if i == s.insertIndex then s
    else
      var r := Stack(s.layers[..i] + s.layers[i + 1..], s.insertIndex - 1, s.hooks + [OnDetach(l)]);
      assert Regular(s)[i] == l;
      assert forall j :: 0 <= j < i ==> Regular(s)[j] != l;
      RemoveFirstIsSplice(Regular(s), l, i);
      SpliceInPrefix(s.layers, i, s.insertIndex);
      r
  }

  /** PopOverlay(o): only the overlays are searched.  When o is among them
      its first occurrence is erased and o's detach hook is called; the
      insert index and the regular layers are untouched.  Otherwise nothing
      changes, even when o is a regular layer. */
  function PopOverlay(s: Stack, o: LayerId): (r: Stack)
    requires Valid(s)
    ensures Valid(r)
    ensures o in Overlays(s) ==>
      Regular(r) == Regular(s) && Overlays(r) == RemoveFirst(Overlays(s), o) &&
      r.hooks == s.hooks + [OnDetach(o)]
    ensures o !in Overlays(s) ==> r == s
  {
    var i := Find(s.layers, s.insertIndex, |s.layers|, o);
    if i == |s.layers| then s
    else
      var r := Stack(s.layers[..i] + s.layers[i + 1..], s.insertIndex, s.hooks + [OnDetach(o)]);
      var k := i - s.insertIndex;
      assert Overlays(s)[k] == o;
      RemoveFirstIsSplice(Overlays(s), o, k);
      assert r.layers[..s.insertIndex] == s.layers[..s.insertIndex];
      assert r.layers[s.insertIndex..] == Overlays(s)[..k] + Overlays(s)[k + 1..];
      r
  }

  /** Regular layers pushed after an overlay still go before it: pushing
      layer a, then overlay x, then layer b gives a, b, x, with only a and b
      attached. */
  lemma OverlaysStayOnTop(a: LayerId, x: LayerId, b: LayerId)
    ensures var s := PushLayer(PushOverlay(PushLayer(Empty, a), x), b);
      s.layers == [a, b, x] && s.insertIndex == 2 && s.hooks == [OnAttach(a), OnAttach(b)]
  {
    var s1 := PushLayer(Empty, a);
    var s2 := PushOverlay(s1, x);
    var s3 := PushLayer(s2, b);
    assert s3.layers == Regular(s3) + Overlays(s3);
  }

  /** Popping a layer just pushed (and not pushed before) restores the
      bands; the log shows its attach followed by its detach. */
  lemma PushLayerThenPop(s: Stack, l: LayerId)
    requires Valid(s) && l !in Regular(s)
    ensures var r := PopLayer(PushLayer(s, l), l);
      r.layers == s.layers && r.insertIndex == s.insertIndex &&
      r.hooks == s.hooks + [OnAttach(l), OnDetach(l)]
  {
    var p := PushLayer(s, l);
    var n := |Regular(s)|;
    assert Regular(p)[n] == l;
    RemoveFirstIsSplice(Regular(p), l, n);
    assert Regular(p)[..n] == Regular(s) && Regular(p)[n + 1..] == [];
    var r := PopLayer(p, l);
    assert Regular(r) == Regular(s);
    assert r.layers == Regular(r) + Overlays(r);
    assert s.layers == Regular(s) + Overlays(s);
  }

  /** Erasing the first copy of x from a sequence that gains x only at its
      end gives the sequence back. */
  lemma AppendThenRemoveFirst(t: seq<LayerId>, x: LayerId)
    requires x !in t
    ensures RemoveFirst(t + [x], x) == t
  {
    RemoveFirstIsSplice(t + [x], x, |t|);
    assert (t + [x])[..|t|] == t;
  }

  /** Popping an overlay just pushed (and not pushed before) restores the
      bands, but the log gains a detach with no attach before it: overlays
      are detached without ever having been attached. */
  lemma PushOverlayThenPop(s: Stack, o: LayerId)
    requires Valid(s) && o !in Overlays(s)
    ensures var r := PopOverlay(PushOverlay(s, o), o);
      r.layers == s.layers && r.insertIndex == s.insertIndex &&
      r.hooks == s.hooks + [OnDetach(o)]
  {
    var t := Overlays(s);
    var p := PushOverlay(s, o);
    AppendThenRemoveFirst(t, o);
    assert o in Overlays(p);
    var r := PopOverlay(p, o);
    assert Regular(r) == Regular(s) && Overlays(r) == t;
    assert r.layers == Regular(r) + Overlays(r);
    assert s.layers == Regular(s) + Overlays(s);
  }

  /** Only the first of two copies of a layer is popped. */
  lemma PopLayerRemovesFirstCopy(a: LayerId, b: LayerId)
    requires a != b
    ensures PopLayer(Stack([a, b, a], 3, []), a) == Stack([b, a], 2, [OnDetach(a)])
  {
    var s := Stack([a, b, a], 3, []);
    assert Regular(s) == [a, b, a];
    assert RemoveFirst([a, b, a], a) == [b, a];
    assert PopLayer(s, a).layers == Regular(PopLayer(s, a)) + Overlays(PopLayer(s, a));
  }
}
