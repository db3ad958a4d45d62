/**
 * The satellite overlay component: a GIBS tile layer that finds its tile URLs
 * in a stored template, and the effect that keeps exactly one such layer on
 * the map, detaching the previous one before attaching its replacement.
 */
module NasaTileLayer {
  import opened Options
  import opened TileTemplate

  /** The opacity the component uses when its caller gives none. */
  const DefaultOpacity: real := 0.7

  /** The map: the set of layers currently drawn on it. */
  class LeafletMap {
    var layers: set<object>

    constructor (layers: set<object>)
      ensures this.layers == layers
    {
      this.layers := layers;
    }

    /** `map.addLayer(l)`, which `l.addTo(map)` calls; adding a layer already there changes nothing. */
    method AddLayer(l: object)
      modifies this
      ensures layers == old(layers) + {l}
    {
      layers := layers + {l};
    }

    /** `map.removeLayer(l)`; removing a layer that is not there changes nothing. */
    method RemoveLayer(l: object)
      modifies this
      ensures layers == old(layers) - {l}
    {
      layers := layers - {l};
    }
  }

  /**
   * An instance of the GIBS tile-layer class. Its initializer keeps the
   * template for itself and hands the base tile layer the empty URL, so every
   * tile URL comes from the template.
   */
  class GibsLayer {
    const templateUrl: string
    const url: string
    const opacity: real

    constructor (templateUrl: string, opacity: real)
      ensures this.templateUrl == templateUrl && this.url == "" && this.opacity == opacity
    {
      this.templateUrl := templateUrl;
      this.url := "";
      this.opacity := opacity;
    }

    /**
     * The URL of one tile, found in the stored template and not in the base
     * layer's empty URL: each placeholder gets its own coordinate by name.
     */
    function GetTileUrl(c: Coords): (tileUrl: string)
      ensures tileUrl == Substitute(templateUrl, true, true, true, NumberToString(c.z), NumberToString(c.y), NumberToString(c.x))
    {
      TileUrl(templateUrl, c)
    }
  }

  /** `layers` after `removeLayer(l)` when `l` is set; the layers unchanged otherwise. */
  function Detached(layers: set<object>, l: GibsLayer?): (r: set<object>)
    ensures l != null ==> l !in r
    ensures forall o :: o in layers && o != l ==> o in r
    ensures r <= layers
  {
    if l == null then layers else layers - {l}
  }

  /** The values the effect depends on; the effect runs again when any of them changes. */
  datatype Deps = Deps(url: string, selectedDate: string, opacity: real)

  /**
   * One mounted instance of the overlay component on a fixed map: the
   * reference to the layer it made last, whether the effect's last run left a
   * cleanup for React to call, and the dependency values of that run.
   * `created` is every layer this instance ever made.
   */
  class NasaTileLayerComponent {
    const leafletMap: LeafletMap
    var layerRef: GibsLayer?
    var pendingCleanup: bool
    var lastDeps: Option<Deps>
    ghost var created: set<GibsLayer>

    /** The layers made by this instance that are on the map now. */
    ghost function Overlays(): set<GibsLayer>
      reads this, leafletMap
    {
      set l | l in created && l in leafletMap.layers
    }

    /** Of the layers this instance made, only the referenced one can be on the map. */
    ghost predicate Valid()
      reads this, leafletMap
    {
      && (layerRef != null ==> layerRef in created)
      && (forall l :: l in created && l in leafletMap.layers ==> l == layerRef)
    }

    /**
     * Valid between two renders as React drives the component: a layer is on
     * the map only while the cleanup that will remove it is pending.
     */
    ghost predicate Settled()
      reads this, leafletMap
    {
      && Valid()
      && (pendingCleanup ==> layerRef != null)
      && (!pendingCleanup ==> Overlays() == {})
    }

    /** At most one layer made by this instance is on the map. */
    lemma AtMostOneOverlay()
      requires Valid()
      ensures |Overlays()| <= 1
      ensures layerRef == null ==> Overlays() == {}
    {
      if layerRef == null {
        assert Overlays() == {};
      } else {
        assert Overlays() <= {layerRef};
        if layerRef in Overlays() {
          assert Overlays() == {layerRef};
        } else {
          assert Overlays() == {};
        }
      }
    }

    /** Mounting: the reference starts out empty and the effect has not run. */
    constructor (leafletMap: LeafletMap)
      ensures this.leafletMap == leafletMap && leafletMap.layers == old(leafletMap.layers)
      ensures layerRef == null && !pendingCleanup && lastDeps == None && created == {}
      ensures Settled()
    {
      this.leafletMap := leafletMap;
      layerRef := null;
      pendingCleanup := false;
      lastDeps := None;
      created := {};
    }

    /**
     * The effect body. With an empty URL it returns at once and leaves no
     * cleanup. Otherwise it removes the referenced layer, makes a new layer
     * from the URL with the given opacity, keeps it in the reference, adds it
     * to the map and leaves a cleanup; `cleanup` tells which.
     */
    method RunEffect(url: string, opacity: real) returns (cleanup: bool)
      requires Valid()
      modifies this`layerRef, this`created, leafletMap
      ensures Valid()
      ensures cleanup <==> url != ""
      ensures url == "" ==> leafletMap.layers == old(leafletMap.layers) && layerRef == old(layerRef) && created == old(created)
      ensures url != "" ==> layerRef != null && fresh(layerRef) && created == old(created) + {layerRef}
      ensures url != "" ==> layerRef.templateUrl == url && layerRef.url == "" && layerRef.opacity == opacity
      ensures url != "" ==> leafletMap.layers == Detached(old(leafletMap.layers), old(layerRef)) + {layerRef}
      ensures url != "" ==> Overlays() == {layerRef}
    {
      if url == "" {
        return false;
      }
      if layerRef != null {
        leafletMap.RemoveLayer(layerRef);
      }
      var layer := new GibsLayer(url, opacity);
      layerRef := layer;
      created := created + {layer};
      leafletMap.AddLayer(layer);
      assert Overlays() == {layer};
      return true;
    }

    /** The cleanup the effect leaves: remove the referenced layer; the reference itself is kept. */
    method Cleanup()
      requires Valid()
      modifies leafletMap
      ensures Valid()
      ensures leafletMap.layers == Detached(old(leafletMap.layers), layerRef)
      ensures Overlays() == {}
    {
      if layerRef != null {
        leafletMap.RemoveLayer(layerRef);
      }
      assert Overlays() == {};
    }

    /**
     * A render with the given props, as React commits it: when the dependency
     * values differ from those of the last run (or the effect never ran), the
     * pending cleanup runs first and then the effect; otherwise nothing happens.
     */
    method Render(url: string, opacity: Option<real>, selectedDate: string)
      requires Settled()
      modifies this, leafletMap
      ensures Settled()
      ensures lastDeps == Some(Deps(url, selectedDate, opacity.GetOr(DefaultOpacity)))
      ensures old(lastDeps) == lastDeps ==>
        && leafletMap.layers == old(leafletMap.layers) && layerRef == old(layerRef)
        && pendingCleanup == old(pendingCleanup) && Overlays() == old(Overlays())
      ensures old(lastDeps) != lastDeps && url == "" ==>
        && leafletMap.layers == old(leafletMap.layers) - old(Overlays()) && Overlays() == {}
        && !pendingCleanup && layerRef == old(layerRef)
      ensures old(lastDeps) != lastDeps && url != "" ==>
        && pendingCleanup && layerRef != null && fresh(layerRef) && Overlays() == {layerRef}
        && layerRef.templateUrl == url && layerRef.opacity == opacity.GetOr(DefaultOpacity)
        && leafletMap.layers == old(leafletMap.layers) - old(Overlays()) + {layerRef}
    {
      var deps := Deps(url, selectedDate, opacity.GetOr(DefaultOpacity));
      if lastDeps == Some(deps) {
        return;
      }
      ghost var before := Overlays();
      if pendingCleanup {
        Cleanup();
        pendingCleanup := false;
      }
      assert leafletMap.layers == old(leafletMap.layers) - before;
      pendingCleanup := RunEffect(url, deps.opacity);
      lastDeps := Some(deps);
    }

    /** Unmounting: React calls the pending cleanup, if any; no layer of this instance remains. */
    method Unmount()
      requires Settled()
      modifies this, leafletMap
      ensures Valid() && !pendingCleanup && layerRef == old(layerRef)
      ensures leafletMap.layers == old(leafletMap.layers) - old(Overlays())
      ensures Overlays() == {}
    {
      if pendingCleanup {
        Cleanup();
        pendingCleanup := false;
      }
    }
  }

  /**
   * Changing the selected date while the URL stays the same: the first layer
   * is taken off the map and a second, different layer carries the overlay.
   */
  method DateChangeSwapsLayer(leafletMap: LeafletMap, url: string, date1: string, date2: string)
    returns (first: GibsLayer, second: GibsLayer, component: NasaTileLayerComponent)
    requires url != "" && date1 != date2
    modifies leafletMap
    ensures first != second && first !in leafletMap.layers && second in leafletMap.layers
    ensures component.Settled() && component.Overlays() == {second}
  {
    component := new NasaTileLayerComponent(leafletMap);
    component.Render(url, None, date1);
    first := component.layerRef;
    component.Render(url, None, date2);
    second := component.layerRef;
  }
}
