/** The layer stack as the program keeps it: a vector of layer handles that
    is changed in place and an insert index that is moved up and down.  The
    hook calls a layer receives are kept in a ghost log.  Every method is
    proved to leave the stack exactly as the function of the same name in
    module LayerStackModel says. */
module Layers {
  import opened LayerStackModel

  class LayerStack {
    var layers: seq<LayerId>
    var insertIndex: nat
    ghost var hooks: seq<Hook>

    /** The stack as a value of the pure model. */
    ghost function Model(): Stack
      reads this
    {
      Stack(layers, insertIndex, hooks)
    }

    ghost predicate Valid()
      reads this
    {
      LayerStackModel.Valid(Model())
    }

    /** A new stack holds no layers; no hook has been called. */
    constructor ()
      ensures Valid() && Model() == Empty
    {
      layers, insertIndex := [], 0;
      hooks := [];
    }

    /** The destructor neither detaches nor releases any layer: the layers
        are owned, and released, elsewhere. */
    method Destroy()
      requires Valid()
      ensures Model() == old(Model())
    {
    }

    method PushLayer(l: LayerId)
      requires Valid()
      modifies this
      ensures Valid()
      ensures Model() == LayerStackModel.PushLayer(old(Model()), l)
    {
      layers := layers[..insertIndex] + [l] + layers[insertIndex..];
      insertIndex := insertIndex + 1;
      hooks := hooks + [OnAttach(l)];
    }

    method PushOverlay(o: LayerId)
      requires Valid()
      modifies this
      ensures Valid()
      ensures Model() == LayerStackModel.PushOverlay(old(Model()), o)
    {
      layers := layers + [o];
    }

    method PopLayer(l: LayerId)
      requires Valid()
      modifies this
      ensures Valid()
      ensures Model() == LayerStackModel.PopLayer(old(Model()), l)
    {
      var it := FindIn(layers, 0, insertIndex, l);
      if it != insertIndex {
        hooks := hooks + [OnDetach(l)];
        layers := layers[..it] + layers[it + 1..];
        insertIndex := insertIndex - 1;
      }
    }

    method PopOverlay(o: LayerId)
      requires Valid()
      modifies this
      ensures Valid()
      ensures Model() == LayerStackModel.PopOverlay(old(Model()), o)
    {
      var it := FindIn(layers, insertIndex, |layers|, o);
      if it != |layers| {
        hooks := hooks + [OnDetach(o)];
        layers := layers[..it] + layers[it + 1..];
      }
    }
  }

  /** The linear search over s[lo..hi), front to back, stopping at the first
      position holding x; hi when there is none. */
  method FindIn(s: seq<LayerId>, lo: nat, hi: nat, x: LayerId) returns (it: nat)
    requires lo <= hi <= |s|
    ensures it == Find(s, lo, hi, x)
  {
    it := lo;
    while it < hi && s[it] != x
      invariant lo <= it <= hi
      invariant Find(s, it, hi, x) == Find(s, lo, hi, x)
      decreases hi - it
    {
      it := it + 1;
    }
  }
}
