/** TowerPlacement: placement mode, the layer-mask test for a free spot, and purchase-then-create.
    GameObjects are integer ids: the preview tower and each placed tower get a fresh id, and Destroy adds
    the id to `destroyedObjects`. */
module Placement {
  import opened Common
  import opened Economy
  import opened Towers

  /** The 32-bit mask of one layer: 1 << layer. */
  function LayerBit(layer: Layer): bv32
  {
    (1 as bv32) << layer
  }

  /** A collider blocks placement when its layer is in the blocking mask, not in the ignore mask, and it
      is not part of the preview tower. */
  predicate Blocks(c: Collider, blockingLayers: bv32, ignoreLayers: bv32, hasPreview: bool)
  {
    !InMask(c.layer, ignoreLayers) && InMask(c.layer, blockingLayers) && !(hasPreview && c.childOfPreview)
  }

  /** The layer's bit is set in the mask. */
  predicate InMask(layer: Layer, mask: bv32)
  {
    LayerBit(layer) & mask != 0
  }

  lemma LayerBitNonZero(layer: Layer)
    ensures LayerBit(layer) != 0
  {
    var b := LayerBit(layer);
    assert b >> layer == 1;
  }

  /** Ignoring every layer, or blocking none, always leaves the spot free. */
  lemma NoMaskNoBlock(c: Collider, hasPreview: bool)
    ensures !Blocks(c, 0, 0, hasPreview)
    ensures forall blocking: bv32 :: !Blocks(c, blocking, 0xFFFF_FFFF, hasPreview)
  {
    LayerBitNonZero(c.layer);
    assert LayerBit(c.layer) & 0xFFFF_FFFF == LayerBit(c.layer);
    assert InMask(c.layer, 0xFFFF_FFFF);
  }

  /** The ids Destroy is called on when placement mode ends: the preview's, if there is one. */
  function PreviewIds(preview: Option<ObjId>): set<ObjId>
  {
    if preview.Some? then {preview.value} else {}
  }

  /** Placed(id, config, position): one CreateTower call. */
  datatype Placed = Placed(id: ObjId, config: TowerConfig, position: Vec3)

  /** CanPlaceAtPosition's loop over the colliders overlapping the spot: the first blocking one ends it. */
  method CanPlaceAtPosition(overlap: seq<Collider>, blockingLayers: bv32, ignoreLayers: bv32, hasPreview: bool)
      returns (canPlace: bool)
    ensures canPlace <==> forall k :: 0 <= k < |overlap| ==> !Blocks(overlap[k], blockingLayers, ignoreLayers, hasPreview)
  {
    var i := 0;
    while i < |overlap|
      invariant 0 <= i <= |overlap|
      invariant forall k :: 0 <= k < i ==> !Blocks(overlap[k], blockingLayers, ignoreLayers, hasPreview)
    {
      var layer := overlap[i].layer;
      if InMask(layer, ignoreLayers) {
        i := i + 1;
        continue;
      }
      if InMask(layer, blockingLayers) {
        if !(hasPreview && overlap[i].childOfPreview) {
          return false;
        }
      }
      i := i + 1;
    }
    return true;
  }

  class TowerPlacement {
    const blockingLayers: bv32
    const ignoreLayers: bv32
    var currentTowerConfig: Option<TowerConfig>
    var previewTower: Option<ObjId>
    var previewPosition: Vec3
    var placed: seq<Placed>
    var destroyedObjects: set<ObjId>
    /** The id the next Instantiate gets. */
    var nextId: ObjId

    /** Ids below nextId have been handed out; every placed tower and the preview has one. */
    ghost predicate Valid()
      reads this
    {
      (previewTower.Some? ==> previewTower.value < nextId) &&
      (forall k :: 0 <= k < |placed| ==> placed[k].id < nextId)
    }

    constructor (blockingLayers: bv32, ignoreLayers: bv32)
      ensures Valid()
      ensures this.blockingLayers == blockingLayers && this.ignoreLayers == ignoreLayers
      ensures currentTowerConfig == None && previewTower == None && placed == [] && destroyedObjects == {}
    {
      this.blockingLayers := blockingLayers;
      this.ignoreLayers := ignoreLayers;
      currentTowerConfig, previewTower := None, None;
      previewPosition := Vec3(0.0, 0.0, 0.0);
      placed, destroyedObjects, nextId := [], {}, 0;
    }

    /** With a config the player can afford, enters placement mode with a fresh preview tower. A preview
        left from an earlier StartPlacement is not destroyed. */
    method StartPlacement(config: Option<TowerConfig>, gm: GameManager)
      requires Valid()
      modifies this
      ensures Valid()
      ensures config.None? || !gm.CanAfford(config.value.cost) ==>
        currentTowerConfig == old(currentTowerConfig) && previewTower == old(previewTower) && nextId == old(nextId)
      ensures config.Some? && gm.CanAfford(config.value.cost) ==>
        currentTowerConfig == config && previewTower == Some(old(nextId)) && nextId == old(nextId) + 1
      ensures placed == old(placed) && destroyedObjects == old(destroyedObjects) && previewPosition == old(previewPosition)
    {
      if config.None? || !gm.CanAfford(config.value.cost) {
        return;
      }
      currentTowerConfig := config;
      previewTower := Some(nextId);
      nextId := nextId + 1;
    }

    /** Destroys the preview, if any, and leaves placement mode. */
    method CancelPlacement()
      requires Valid()
      modifies this
      ensures Valid()
      ensures currentTowerConfig == None && previewTower == None
      ensures destroyedObjects == old(destroyedObjects) + PreviewIds(old(previewTower))
      ensures placed == old(placed) && nextId == old(nextId) && previewPosition == old(previewPosition)
    {
      if previewTower.Some? {
        destroyedObjects := destroyedObjects + {previewTower.value};
      }
      currentTowerConfig := None;
      previewTower := None;
    }

    /** Buys the tower; only when the purchase goes through is one tower created at `position` and
        placement mode left. The grid cell is not marked and the tower's grid position is not set. */
    method PlaceTower(config: TowerConfig, position: Vec3, gm: GameManager)
      requires Valid()
      modifies this, gm
      ensures Valid() && previewPosition == old(previewPosition)
      ensures gm.State() == Purchase(old(gm.State()), config.cost).0
      ensures !old(gm.CanAfford(config.cost)) ==>
        placed == old(placed) && currentTowerConfig == old(currentTowerConfig) &&
        previewTower == old(previewTower) && destroyedObjects == old(destroyedObjects) && nextId == old(nextId)
      ensures old(gm.CanAfford(config.cost)) ==>
        placed == old(placed) + [Placed(old(nextId), config, position)] && nextId == old(nextId) + 1 &&
        currentTowerConfig == None && previewTower == None &&
        destroyedObjects == old(destroyedObjects) + PreviewIds(old(previewTower))
    {
      var ok := gm.TryPurchase(config.cost);
      if !ok {
        return;
      }
      placed := placed + [Placed(nextId, config, position)];
      nextId := nextId + 1;
      CancelPlacement();
    }

    /** The state one frame of placement input leaves, given the fields and the ledger before it and the
        current config `config0`. Without a ray hit nothing changes. Otherwise the preview (if any) moves
        to the hit point at ground height; a left click on a free spot buys the tower, and creates it and
        leaves placement mode only when the purchase goes through; otherwise a right click cancels; any
        other input leaves the rest as it was. */
    predicate InputOutcome(hit: Option<Vec3>, groundHeight: real, overlap: seq<Collider>,
                           leftDown: bool, rightDown: bool, config0: TowerConfig,
                           preview0: Option<ObjId>, previewPosition0: Vec3, placed0: seq<Placed>,
                           destroyed0: set<ObjId>, nextId0: ObjId, ledger0: Ledger, ledger: Ledger)
      reads this
    {
      if hit.None? then
        currentTowerConfig == Some(config0) && previewTower == preview0 && previewPosition == previewPosition0 &&
        placed == placed0 && destroyedObjects == destroyed0 && nextId == nextId0 && ledger == ledger0
      else
        var position := Vec3(hit.value.x, groundHeight, hit.value.z);
        var free := forall k :: 0 <= k < |overlap| ==> !Blocks(overlap[k], blockingLayers, ignoreLayers, preview0.Some?);
        previewPosition == (if preview0.Some? then position else previewPosition0) &&
        if leftDown && free then
          ledger == Purchase(ledger0, config0.cost).0 &&
          if Affordable(ledger0, config0.cost) then
            placed == placed0 + [Placed(nextId0, config0, position)] && nextId == nextId0 + 1 &&
            currentTowerConfig == None && previewTower == None && destroyedObjects == destroyed0 + PreviewIds(preview0)
          else
            placed == placed0 && nextId == nextId0 && currentTowerConfig == Some(config0) &&
            previewTower == preview0 && destroyedObjects == destroyed0
        else if rightDown then
          currentTowerConfig == None && previewTower == None && destroyedObjects == destroyed0 + PreviewIds(preview0) &&
          placed == placed0 && nextId == nextId0 && ledger == ledger0
        else
          currentTowerConfig == Some(config0) && previewTower == preview0 && placed == placed0 &&
          destroyedObjects == destroyed0 && nextId == nextId0 && ledger == ledger0
    }

    /** One frame's input while placing: `hit` is the ground raycast, `groundHeight` the ground's height at
        it, `overlap` the colliders within 0.5 of the spot. */
    method HandlePlacementInput(hit: Option<Vec3>, groundHeight: real, overlap: seq<Collider>,
                                leftDown: bool, rightDown: bool, gm: GameManager)
      requires Valid() && currentTowerConfig.Some?
      modifies this, gm
      ensures Valid()
      ensures InputOutcome(hit, groundHeight, overlap, leftDown, rightDown, old(currentTowerConfig).value,
                           old(previewTower), old(previewPosition), old(placed), old(destroyedObjects),
                           old(nextId), old(gm.State()), gm.State())
    {
      if hit.None? {
        return;
      }
      var position := Vec3(hit.value.x, groundHeight, hit.value.z);
      var canPlace := CanPlaceAtPosition(overlap, blockingLayers, ignoreLayers, previewTower.Some?);
      if previewTower.Some? {
        previewPosition := position;
      }
      if leftDown && canPlace {
        PlaceTower(currentTowerConfig.value, position, gm);
      } else if rightDown {
        CancelPlacement();
      }
    }

    /** Update: without a placement config nothing happens; otherwise the input is handled. */
    method Update(hit: Option<Vec3>, groundHeight: real, overlap: seq<Collider>,
                  leftDown: bool, rightDown: bool, gm: GameManager)
      requires Valid()
      modifies this, gm
      ensures Valid()
      ensures old(currentTowerConfig).None? ==>
        currentTowerConfig == None && previewTower == old(previewTower) && previewPosition == old(previewPosition) &&
        placed == old(placed) && destroyedObjects == old(destroyedObjects) && nextId == old(nextId) &&
        gm.State() == old(gm.State())
      ensures old(currentTowerConfig).Some? ==>
        InputOutcome(hit, groundHeight, overlap, leftDown, rightDown, old(currentTowerConfig).value,
                     old(previewTower), old(previewPosition), old(placed), old(destroyedObjects),
                     old(nextId), old(gm.State()), gm.State())
    {
      if currentTowerConfig.None? {
        return;
      }
      HandlePlacementInput(hit, groundHeight, overlap, leftDown, rightDown, gm);
    }
  }
}
