/**
 * The inspector panel of the editor: which component panels it shows for the
 * selected node and which components its "add component" button offers.
 */
module Inspector {
  import opened Wrappers

  datatype ComponentType = Script | Mesh | Physics | SpawnPoint

  /** The glTF extensions of a node that the inspector looks at. */
  datatype Extensions = Extensions(collider: bool, spawnPoint: bool)

  /** What the inspector reads about the selection and the scene. */
  datatype Selection = Selection(
    selectedId: Option<string>,
    nodeExists: bool,
    meshId: Option<string>,
    extensions: Option<Extensions>,
    spawnExists: bool)

  datatype Panel = Panel(
    available: seq<ComponentType>,
    showMesh: bool,
    showPhysics: bool,
    showSpawnPoint: bool,
    showAddButton: bool)

  /** JavaScript truthiness of an optional string: present and not empty. */
  predicate Truthy(s: Option<string>) {
    s.Some? && s.value != ""
  }

  predicate HasCollider(sel: Selection) {
    sel.extensions.Some? && sel.extensions.value.collider
  }

  predicate HasSpawnPoint(sel: Selection) {
    sel.extensions.Some? && sel.extensions.value.spawnPoint
  }

  /** The position of each component type in the offered list. */
  function Rank(c: ComponentType): nat {
    match c
    case Script => 0
    case Mesh => 1
    case Physics => 2
    case SpawnPoint => 3
  }

  /**
   * The components the add button offers: Script always, then Mesh without a
   * mesh, Physics without a collider, SpawnPoint when neither this node nor any
   * other is a spawn point.
   */
  function AvailableComponents(sel: Selection): (r: seq<ComponentType>)
    ensures 1 <= |r| <= 4 && r[0] == Script
    ensures Mesh in r <==> !Truthy(sel.meshId)
    ensures Physics in r <==> !HasCollider(sel)
    ensures SpawnPoint in r <==> !HasSpawnPoint(sel) && !sel.spawnExists
    ensures forall i, j :: 0 <= i < j < |r| ==> Rank(r[i]) < Rank(r[j])
  {
    [Script]
    + (if !Truthy(sel.meshId) then [Mesh] else [])
    + (if !HasCollider(sel) then [Physics] else [])
    + (if !HasSpawnPoint(sel) && !sel.spawnExists then [SpawnPoint] else [])
  }

  /** The menu renders nothing unless a node is selected and exists. */
  function InspectMenu(sel: Selection): (r: Option<Panel>)
    ensures r.None? <==> !sel.nodeExists || !Truthy(sel.selectedId)
    ensures r.Some? ==> r.value.available == AvailableComponents(sel)
    ensures r.Some? ==> (r.value.showMesh <==> Truthy(sel.meshId))
    ensures r.Some? ==> (r.value.showPhysics <==> HasCollider(sel))
    ensures r.Some? ==> (r.value.showSpawnPoint <==> HasSpawnPoint(sel))
    ensures r.Some? ==> r.value.showAddButton
  {
    if !sel.nodeExists || !Truthy(sel.selectedId) then None
    else
      var available := AvailableComponents(sel);
      Some(Panel(
        available,
        Truthy(sel.meshId),
        HasCollider(sel),
        HasSpawnPoint(sel),
        |available| > 0))
  }

  /**
   * For the mesh and physics components exactly one of "offered" and "shown"
   * holds; a spawn point that exists elsewhere is neither offered nor shown.
   */
  lemma OfferedOrShown(sel: Selection)
    requires InspectMenu(sel).Some?
    ensures var p := InspectMenu(sel).value;
      && (Mesh in p.available <==> !p.showMesh)
      && (Physics in p.available <==> !p.showPhysics)
      && (SpawnPoint in p.available ==> !p.showSpawnPoint)
      && (sel.spawnExists && !HasSpawnPoint(sel) ==> SpawnPoint !in p.available && !p.showSpawnPoint)
  {
  }

  /** Ordered by rank, the offered list has no duplicates. */
  lemma AvailableHasNoDuplicates(sel: Selection)
    ensures var r := AvailableComponents(sel);
      forall i, j :: 0 <= i < j < |r| ==> r[i] != r[j]
  {
  }
}
