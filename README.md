# Node shapes: a verified model of a data-tree visualisation engine

This project models, in Dafny, the core of a JavaScript visualisation
library that draws a large external data tree as a sparse, lazily
materialised mirror made of node shapes.

- **Node shapes** (`NodeShape2d`). Each visualisation context has a UID,
  and each data node holds at most one shape per UID. A shape keeps its
  parent shape, its ordered child shapes and a small state record
  (hover, expanded, selected, focused, dragged). The context keeps three
  registries: roots, leaves and collapsed shapes (those showing fewer
  children than their node has). The model covers:
  - the relation mutators `__setParent`, `__addChild` and `__removeChild`;
  - `add()`, `remove()` and `__delete()`, and the binding in `__init`;
  - the materialisers `createParent`, `createAncestors`, `createChild`,
    `createChildren` and `createDescendants`;
  - the teardown operations `destroyParent`, `destroyAncestors`,
    `destroyChildren` and `destroyDescendants`;
  - the read-only queries;
  - `select`, `deselect`, `focus` and `defocus`, with their single-hop
    forwarding to the node's shapes in other contexts.
- **Abstract shapes** (`AbstractShape`), the bookkeeping under every
  shape:
  - set-like listener lists;
  - the "ticked while it has update listeners" rule;
  - the target setters' argument shifting and retained defaults;
  - the arrival callback that fires once;
  - the loose bounding box and the spatial-tree search that excludes the
    shape itself.
- **Compound shapes** (`CompoundShape2d`): a list of sub-shapes with a
  parent back-link, and the bounding fold that gives the compound its
  size and pivot.

All node shapes of all contexts live in one `NodeShapes.Scene` object,
addressed by integer ids. Its maps and sets are updated step by step, as
the source updates its fields. `Scene.Snap()` reads the structural fields
as a `NodeLinks.Links` value.

Every public operation is proved to do two things, for `add()` as
corrected in the first and fourth rows of "## Findings": registration
that follows the links, and a parent lookup that treats a data parent
without a shape as "no parent shape":

- keep the scene invariant `NodeLinks.Valid`:
  - every registry matches the structure;
  - parent and child links are symmetric;
  - no child list has duplicates;
  - there is one rendered shape per node and context;
  - every rendered shape is linked to the rendered shape of its data
    parent;
- leave `Snap()` equal to the effect that the value-level modules
  describe: `LinkRegister`, `LinkAttach`, `LinkAdd`, `LinkRemove`,
  `LinkBind`, `LinkPrune`, `LinkGrow`, `Razing` and `Teardown`.

The data tree is a constant value (`DataTrees.DataTree`). Its
`getShape`/`addShape` slots are the scene's `slot` map.

`AbstractShapes.Shape` and `CompoundShapes.Compound` are classes whose
methods update their fields in place. The context's own sets are fields
of an `AbstractShapes.Context` object: registered shapes, active (ticked)
shapes, and shapes stored in the spatial tree.

## Model

| member | source | states |
|---|---|---|
| NodeStates.Initial | Classes/Graphics/2d/Shapes/NodeShape.js:19-25 | a new shape is expanded exactly when its node has no children; hover, selected, focused and dragged start false |
| NodeStates.Set | Classes/Graphics/2d/Shapes/NodeShape.js:38 | the field written holds the new value and every other field keeps its value |
| NodeStates.ChangeState | Classes/Graphics/2d/Shapes/NodeShape.js:36-42 | the new state has the value in the field and nothing else changes; the hook always receives the prior state, and receives the field and value exactly when the value differed (otherwise no change at all) |
| NodeStates.ChangeStateIdempotent | Classes/Graphics/2d/Shapes/NodeShape.js:36-42 | a repeated change leaves the state as the first one did and reports no change to the hook |
| NodeLinks.Partition | Classes/Graphics/2d/Shapes/NodeShape.js:230-257 | the rendered-child query and the missing-child query split the data children: a node is missing exactly when it has no rendered shape, every rendered shape found belongs to one of the nodes, and the two lengths add up to the number of children |
| NodeLinks.RenderedOfDistinct | Classes/Graphics/2d/Shapes/NodeShape.js:230-242 | distinct data children give distinct rendered child shapes, so `__getChildrenFromNode` never lists a shape twice |
| NodeLinks.ChildCountBound | Classes/Graphics/2d/Shapes/NodeShape.js:137-150 | in a consistent scene a shape never lists more child shapes than its node has children |
| NodeLinks.NotOwnChild | Classes/Graphics/2d/Shapes/NodeShape.js:137-150 | no rendered shape lists itself among its children |
| LinkRegister.RegisterAgrees | Classes/Graphics/2d/Shapes/NodeShape.js:72-76 | for a shape that is not rendered yet, the unconditional root and leaf registration of `add()` coincides with registering each only when the structure says so |
| LinkRegister.RegisterRendered | Classes/Graphics/2d/Shapes/NodeShape.js:72-76 | registering an already rendered shape of a sound scene, as intended, changes nothing |
| LinkRegister.RegisterAsWrittenBreaksRoots | Classes/Graphics/2d/Shapes/NodeShape.js:72-74 | the registration as written puts a rendered shape that has a parent into the root registry, so the root registry no longer matches the structure |
| LinkRegister.RegisterAsWrittenBreaksLeaves | Classes/Graphics/2d/Shapes/NodeShape.js:72-73 | the registration as written puts a rendered shape that has children into the leaf registry, so the leaf registry no longer matches the structure |
| LinkRegister.RegisterSound | Classes/Graphics/2d/Shapes/NodeShape.js:70-76 | registering a bound shape that was not rendered keeps the links, the slots and the three registries consistent |
| LinkRegister.RegisterKin | Classes/Graphics/2d/Shapes/NodeShape.js:82-84 | after registration the rendered shapes of the data children are rendered shapes, each listed once, none of them the shape itself, and their data parent's rendered shape is the new shape |
| LinkRegister.RegisterPending | Classes/Graphics/2d/Shapes/NodeShape.js:69-84 | right after registration only the new shape and its data children's rendered shapes are still missing their links; every other shape stays correctly linked |
| LinkAdd.ParentStep | Classes/Graphics/2d/Shapes/NodeShape.js:78-80 | registering and then linking to the parent shape keeps the scene sound, marks the shape rendered and leaves exactly the rendered shapes of its data children waiting for their link |
| LinkAdd.KinReady | Classes/Graphics/2d/Shapes/NodeShape.js:82-84 | the rendered shapes of the data children are distinct, rendered, without a parent, and have the new shape as their data parent's rendered shape |
| LinkAdd.AddSound | Classes/Graphics/2d/Shapes/NodeShape.js:69-84 | `add()` on a bound shape that was not rendered keeps every invariant: registries match the structure, links are symmetric, children have no duplicates, one rendered shape per node and context, and every rendered shape is linked to its data parent's rendered shape |
| LinkAdd.AddEffect | Classes/Graphics/2d/Shapes/NodeShape.js:69-84 | after `add()` the shape is rendered, its parent is the rendered shape of its data parent (none when there is none), and nodes, contexts and slots are unchanged |
| LinkAdd.AddShowsKin | Classes/Graphics/2d/Shapes/NodeShape.js:82-84 | after `add()` the shape's children are exactly the rendered shapes of its node's children, in data order |
| LinkAdd.AddSiblings | Classes/Graphics/2d/Shapes/NodeShape.js:78-84 | the only other child list `add()` changes is the parent shape's, which gains the new shape at its end |
| LinkAdd.RenderedSteps | Classes/Graphics/2d/Shapes/NodeShape.js:69-84 | on a shape that is already rendered every link step of `add()` finds its work done |
| LinkAttach.AttachSound | Classes/Graphics/2d/Shapes/NodeShape.js:125-150 | linking a waiting shape to the rendered shape of its data parent keeps the scene sound and resolves that shape; beforehand the link was missing on both sides |
| LinkAttach.AttachAllChildren | Classes/Graphics/2d/Shapes/NodeShape.js:82-84 | the `__addChild` loop appends its shapes, in order, to the parent's child list and changes nothing else in the lists |
| LinkAttach.AttachAllParents | Classes/Graphics/2d/Shapes/NodeShape.js:82-84 | the `__addChild` loop gives each of its shapes the parent, takes them out of the root registry and changes no other parent link |
| LinkAttach.AttachAllMarks | Classes/Graphics/2d/Shapes/NodeShape.js:137-147 | the `__addChild` loop removes the parent from the leaf registry exactly when it had no children, and from the collapsed registry exactly when the last missing child arrives |
| LinkAttach.AttachAllSound | Classes/Graphics/2d/Shapes/NodeShape.js:82-84 | attaching distinct waiting shapes one by one keeps the scene sound and resolves each of them |
| LinkBind.FreshSound | Classes/Graphics/2d/Shapes/NodeShape.js:7-15 | a newly constructed shape, with a fresh id, no parent and no children, keeps every invariant |
| LinkBind.BindSound | Classes/Graphics/2d/Shapes/NodeShape.js:65 | binding a shape that is not rendered to a node slot that no rendered shape holds keeps every invariant |
| LinkBind.InitReplace | Classes/Graphics/2d/Shapes/NodeShape.js:60-63 | removing the shape that held the slot leaves it unrendered and without links, and leaves no rendered shape for that node and context |
| LinkBind.InitSound | Classes/Graphics/2d/Shapes/NodeShape.js:54-66 | `__init` keeps every invariant and afterwards the node's slot for the context holds the shape (one shape per node and context) |
| LinkBind.InitEffect | Classes/Graphics/2d/Shapes/NodeShape.js:54-66 | `__init` moves no other slot, and a different shape that held the slot is no longer rendered and has no links |
| LinkRemove.OrphanedSpec | Classes/Graphics/2d/Shapes/NodeShape.js:99-101 | the loop over the children clears exactly their parent links |
| LinkRemove.RemoveRoots | Classes/Graphics/2d/Shapes/NodeShape.js:94-122 | after `remove()` the root registry again holds exactly the rendered shapes without a parent |
| LinkRemove.RemoveLeaves | Classes/Graphics/2d/Shapes/NodeShape.js:151-163 | after `remove()` the leaf registry again holds exactly the rendered shapes without children |
| LinkRemove.RemoveCollapsed | Classes/Graphics/2d/Shapes/NodeShape.js:151-163 | after `remove()` the collapsed registry again holds exactly the rendered shapes showing fewer children than their node has |
| LinkRemove.RemoveComplete | Classes/Graphics/2d/Shapes/NodeShape.js:94-108 | after `remove()` every remaining rendered shape is still linked to its data parent's rendered shape (its children become roots because their data parent no longer has one) |
| LinkRemove.RemoveUnrendered | Classes/Graphics/2d/Shapes/NodeShape.js:94-122 | `remove()` on a shape that is not rendered changes no link and no registry |
| LinkRemove.RemoveSound | Classes/Graphics/2d/Shapes/NodeShape.js:94-122 | `remove()` keeps every invariant |
| LinkRemove.RemoveEffect | Classes/Graphics/2d/Shapes/NodeShape.js:94-122 | after `remove()` the former parent no longer lists the shape, every former child has no parent, the shape has no links, is not rendered and is in no registry; every other parent link and every other child list is unchanged |
| LinkRemove.RemovedFromDetermines | Classes/Graphics/2d/Shapes/NodeShape.js:94-122 | the field-by-field description of `remove()` has exactly one solution |
| LinkRemove.UpdatesRemove | Classes/Graphics/2d/Shapes/NodeShape.js:94-122 | the in-place updates `remove()` performs give exactly the described result |
| LinkRemove.UnlinkedSound | Classes/Graphics/2d/Shapes/NodeShape.js:94-122 | whatever the in-place updates of `remove()` leave is consistent again |
| LinkPrune.KeptSpec | Classes/Graphics/2d/Shapes/NodeShape.js:369-378 | the kept children are exactly the former children that are in keep, never more of them, duplicate-free, and all of them when all are kept |
| LinkPrune.KeptStep | Classes/Graphics/2d/Shapes/NodeShape.js:372-375 | one backwards step of `destroyChildren` either keeps the child or splices it out, and either way the list is the untouched prefix followed by the kept suffix |
| LinkPrune.KeptOne | Classes/Graphics/2d/Shapes/NodeShape.js:369-378 | keeping only one child of a duplicate-free list leaves just that child |
| LinkPrune.RemoveChildOutside | Classes/Graphics/2d/Shapes/NodeShape.js:375 | `remove()` on a child changes nothing outside the part of the scene below its parent and leaves every sibling's part alone |
| LinkPrune.ChildCallOutside | Classes/Graphics/2d/Shapes/NodeShape.js:386-390 | a recursive call on one child changes nothing outside the part below the parent, keeps the parent's child list and leaves every other child's part intact |
| LinkPrune.EachStep | Classes/Graphics/2d/Shapes/NodeShape.js:386-390 | one turn of the `destroyDescendants` loop keeps the earlier children's results and the later children's parts |
| LinkPrune.PruneStep | Classes/Graphics/2d/Shapes/NodeShape.js:372-376 | one removal in the `destroyChildren` loop keeps every kept child's part and the removed children unrendered and childless |
| LinkPrune.RemoveParentIntact | Classes/Graphics/2d/Shapes/NodeShape.js:303-307 | removing a shape's parent leaves the shape without a parent and changes nothing at or below the shape's node |
| Teardown.DropTurn | Classes/Graphics/2d/Shapes/NodeShape.js:372-376 | after each turn of `destroyChildren` the rendered shapes have lost exactly the dropped children so far, and the parent is not expanded once one went |
| Teardown.PrunedStep | Classes/Graphics/2d/Shapes/NodeShape.js:372-376 | a turn that removes a child keeps the loop state of `destroyChildren` |
| Teardown.PrunedEnd | Classes/Graphics/2d/Shapes/NodeShape.js:369-378 | once the loop reaches the first child, the shape's children are its kept children in order, the others are gone, nothing outside its part changed and it is not expanded if a child went |
| Teardown.ParentGone | Classes/Graphics/2d/Shapes/NodeShape.js:320-321 | with depth at most 0 the parent is removed and the shape has no parent any more |
| Teardown.ParentKept | Classes/Graphics/2d/Shapes/NodeShape.js:316-319 | with depth above 0 the parent stays rendered and the shape's parent, with the shape as its only child when `fully` |
| Teardown.SiblingsCleared | Classes/Graphics/2d/Shapes/NodeShape.js:317-318 | after the parent destroys its descendants keeping only this shape, the shape is its only child and the part below the shape is intact |
| LinkGrow.ShownBelowGrows | Classes/Graphics/2d/Shapes/NodeShape.js:353-368 | data nodes that have rendered shapes down to some depth keep them as the scene only grows |
| LinkGrow.ShownAboveGrows | Classes/Graphics/2d/Shapes/NodeShape.js:289-302 | data ancestors that have rendered shapes keep them as the scene only grows |
| LinkGrow.ShowsAll | Classes/Graphics/2d/Shapes/NodeShape.js:144-147 | a rendered shape with no missing data child lists as many children as its node has and is not collapsed |
| LinkGrow.MissingAfterOne | Classes/Graphics/2d/Shapes/NodeShape.js:325-337 | rendering the first missing data child drops exactly that node from the front of the missing list |
| LinkGrow.ParentIsSlot | Classes/Graphics/2d/Shapes/NodeShape.js:223-229 | a shape's parent, when it has one, is the shape the data parent's slot holds for its context |
| LinkGrow.LinkedToParentShape | Classes/Graphics/2d/Shapes/NodeShape.js:223-229 | in a consistent scene a rendered shape whose data parent has a rendered shape in the same context is that shape's child |
| NodeQueries.RegistryQueries | Classes/Graphics/2d/Shapes/NodeShape.js:171-176 | `isRoot` and `isLeave` of a rendered shape agree with the context's root and leaf registries |
| NodeQueries.GetIndexSpec | Classes/Graphics/2d/Shapes/NodeShape.js:269-271 | a node without a parent has index 0; otherwise the index is a valid position among the parent's children and holds the node |
| NodeQueries.DescendantsOfIn | Classes/Graphics/2d/Shapes/NodeShape.js:210-214 | a shape is among the descendants collected over the children exactly when it is a descendant of one of them |
| NodeQueries.DescendantsBelow | Classes/Graphics/2d/Shapes/NodeShape.js:204-216 | every shape `getDescendants(depth)` returns lies between one and depth parent links below the shape |
| NodeQueries.BelowDescendants | Classes/Graphics/2d/Shapes/NodeShape.js:204-216 | every shape between one and depth parent links below the shape is returned by `getDescendants(depth)` |
| NodeQueries.DescendantsSpec | Classes/Graphics/2d/Shapes/NodeShape.js:204-216 | a shape is a descendant within the depth exactly when the shape lies between one and depth parent links above it |
| NodeQueries.AncestorsAbove | Classes/Graphics/2d/Shapes/NodeShape.js:183-194 | every shape in the intended ancestor chain lies between one and depth parent links above the shape |
| NodeQueries.AboveAncestors | Classes/Graphics/2d/Shapes/NodeShape.js:183-194 | every shape between one and depth parent links above the shape is in the intended ancestor chain |
| NodeQueries.AncestorsSpec | Classes/Graphics/2d/Shapes/NodeShape.js:183-194 | a shape is an intended ancestor within the depth exactly when it lies between one and depth parent links above |
| NodeQueries.AncestorsDescendants | Classes/Graphics/2d/Shapes/NodeShape.js:183-216 | x is a descendant of s within a depth exactly when s is an intended ancestor of x within that depth |
| NodeQueries.AncestorsAsWrittenStops | Classes/Graphics/2d/Shapes/NodeShape.js:188-191 | the ancestors the source returns are a prefix of the intended chain of length at most one, and miss the grandparent when it exists and the depth allows two levels |
| NodeQueries.AncestorsToSpec | Classes/Graphics/2d/Shapes/NodeShape.js:195-203 | the intended chain up to a shape is a prefix of all ancestors that leaves the shape out, and is followed by the shape when the shape is an ancestor |
| NodeQueries.AncestorsToThrows | Classes/Graphics/2d/Shapes/NodeShape.js:198-200 | `getAncestorsTo` as written throws exactly when the intended chain is not empty, and otherwise returns it |
| NodeShapes.ReachedAll | Classes/Graphics/2d/Shapes/NodeShape.js:402-409 | once forwarding has reached every peer, the shapes that notified are the shape and the peers whose flag differs, each once |
| NodeShapes.Notified | Classes/Graphics/2d/Shapes/NodeShape.js:402-437 | whichever branch a select, deselect, focus or defocus call takes, the notices sent are one per target shape, each shape once, and the targets are exactly those whose flag differs |
| NodeShapes.CollapseOnlyShut | Classes/Graphics/2d/Shapes/NodeShape.js:151-163 | the state changes of `remove()` only clear the parent's expanded flag |
| NodeShapes.ShownAboveFromParent | Classes/Graphics/2d/Shapes/NodeShape.js:294-299 | a shape whose parent shape shows its ancestors one level less high shows them to the full depth |
| NodeShapes.ShownBelowFromChildren | Classes/Graphics/2d/Shapes/NodeShape.js:358-365 | a shape with no missing data child shows its subtree to a depth once each child shape shows its own one level less deep |
| NodeShapes.AddKeepsChildren | Classes/Graphics/2d/Shapes/NodeShape.js:69-93 | `add()` changes no child list above the level of the added shape's data parent |
| NodeShapes.Unevicted | Classes/Graphics/2d/Shapes/NodeShape.js:56-58 | `__init` evicts no shape when the slot is free or already holds this shape |
| NodeShapes.ConstructedGrows | Classes/Graphics/2d/Shapes/NodeShape.js:7-27 | constructing a shape for a node without one only adds to the scene, and the new shape is bound and not rendered |
| NodeShapes.AddedGrows | Classes/Graphics/2d/Shapes/NodeShape.js:69-93 | `add()` only adds to the scene: nodes, contexts and slots stay, and the shape becomes rendered |
| NodeShapes.Scene.SetParent | Classes/Graphics/2d/Shapes/NodeShape.js:125-136 | no change when the parent is already the argument; null makes the shape a root; a parent shape gets the shape appended to its children unless listed already, loses leaf status when it had no children, and loses collapsed status and becomes expanded when its last missing child arrives; the shape stops being a root |
| NodeShapes.Scene.AddChild | Classes/Graphics/2d/Shapes/NodeShape.js:137-150 | no change for a child already listed; otherwise the child is appended once and gets this parent, leaf status is dropped exactly on the first child, and collapsed status is dropped and the shape expanded exactly when all data children are shown |
| NodeShapes.Scene.RemoveChild | Classes/Graphics/2d/Shapes/NodeShape.js:151-163 | no change for a shape that is not a child; otherwise it is spliced out, the parent becomes collapsed if it was showing every data child, a leaf if none is left, and not expanded |
| NodeShapes.Scene.Delete | Classes/Graphics/2d/Shapes/NodeShape.js:109-122 | the shape leaves the root, leaf and collapsed registries and is no longer rendered |
| NodeShapes.Scene.OrphanChildren | Classes/Graphics/2d/Shapes/NodeShape.js:99-101 | exactly the listed children lose their parent and become roots; no child list, leaf or collapsed entry or state changes |
| NodeShapes.Scene.ClearLinks | Classes/Graphics/2d/Shapes/NodeShape.js:99-122 | the shape and its children lose their parents, the children become roots, the shape's list is emptied and it leaves every registry and the rendered set |
| NodeShapes.Scene.Unlink | Classes/Graphics/2d/Shapes/NodeShape.js:94-122 | the former parent no longer lists the shape, is a leaf if it has no child left and collapsed if it showed every data child; the shape and its children lose their parents; the children become roots; the shape is unregistered and not rendered; only the parent's expanded flag changes |
| NodeShapes.Scene.Remove | Classes/Graphics/2d/Shapes/NodeShape.js:94-108 | `remove()` keeps the scene valid, has the effect LinkRemove.RemoveEffect describes, and only clears the former parent's expanded flag |
| NodeShapes.Scene.RemoveSteps | Classes/Graphics/2d/Shapes/NodeShape.js:94-107 | the steps of `remove()` on a valid scene match the field-by-field description |
| NodeShapes.Scene.UnlinkSummed | Classes/Graphics/2d/Shapes/NodeShape.js:94-107 | the in-place steps of `remove()` match the field-by-field description |
| NodeShapes.Scene.RegisterShape | Classes/Graphics/2d/Shapes/NodeShape.js:70-76 | the shape becomes rendered and enters the root, leaf and collapsed registries as its links say |
| ParentLookup.ParentFromNodeThrows | Classes/Graphics/2d/Shapes/NodeShape.js:223-229 | `__getParentFromNode` as written throws exactly when the data parent exists and holds no shape for the context; otherwise it returns what the model's lookup `RenderedParent` gives |
| ParentLookup.FirstAddThrows | Classes/Graphics/2d/Shapes/NodeShape.js:69-80 | in the chain 0 → 1 → 2, starting from no shapes, the first `add()` of a new shape for node 2 throws in its parent lookup because node 1 holds no shape, while the model's `add()` of it keeps the scene consistent |
| ParentLookup.CreateParentAsWrittenThrows | Classes/Graphics/2d/Shapes/NodeShape.js:277-288 | in the same scene, `createParent()` on the unrendered shape of node 2 makes and binds a shape for node 1, whose `add()` throws because node 0 holds no shape, while the model's `add()` of that shape keeps the scene consistent |
| NodeShapes.Scene.LinkParent | Classes/Graphics/2d/Shapes/NodeShape.js:79-80 | nothing changes when the parent link is already right; a shape without a parent is attached to the rendered shape of its data parent, which becomes expanded when this was its last missing child |
| NodeShapes.Scene.AddKinChild | Classes/Graphics/2d/Shapes/NodeShape.js:83-84 | one `__addChild` of the loop: nothing when already a child, otherwise the attach step with the expanded flag set exactly when the list becomes full |
| NodeShapes.Scene.LinkKin | Classes/Graphics/2d/Shapes/NodeShape.js:82-84 | the loop changes nothing when every shape is already a child, and otherwise attaches them in order, the parent becoming expanded exactly when its list becomes full |
| NodeShapes.Scene.AddSteps | Classes/Graphics/2d/Shapes/NodeShape.js:69-84 | the link steps of `add()` change nothing on a rendered shape and have the LinkAdd.AddLinks effect on one that is not |
| NodeShapes.Scene.SetUpConnection | Classes/Graphics/2d/Shapes/NodeShape.js:86-88 | the connection flag is recorded exactly when the hook answers falsy |
| NodeShapes.Scene.AddCore | Classes/Graphics/2d/Shapes/NodeShape.js:69-91 | `add()` makes the shape rendered and has the described effect on links and states, keeping the links valid |
| NodeShapes.Scene.AddValid | Classes/Graphics/2d/Shapes/NodeShape.js:69-91 | the same, stated with the whole scene invariant |
| NodeShapes.Scene.Add | Classes/Graphics/2d/Shapes/NodeShape.js:69-93 | `add()` on a bound shape keeps the scene valid, renders the shape, has the LinkAdd.AddLinks effect (none when already rendered), and records the first connection when the hook answers falsy |
| NodeShapes.Scene.Evict | Classes/Graphics/2d/Shapes/NodeShape.js:60-63 | removing the shape that held the slot has the LinkRemove.RemoveLinks effect and keeps the scene valid |
| NodeShapes.Scene.BindSlot | Classes/Graphics/2d/Shapes/NodeShape.js:65 | the node's slot for the context now holds the shape, and no other slot changes |
| NodeShapes.Scene.Init | Classes/Graphics/2d/Shapes/NodeShape.js:54-66 | `__init` keeps the scene valid and has the LinkBind.InitLinks effect: the shape holds its slot, and a different previous holder is removed |
| NodeShapes.Scene.Replace | Classes/Graphics/2d/Shapes/NodeShape.js:56-65 | `__init` when another shape holds the slot: it is removed first, then the slot is taken |
| NodeShapes.Scene.Claim | Classes/Graphics/2d/Shapes/NodeShape.js:56-65 | `__init` on a free slot only binds the shape |
| NodeShapes.Scene.Rebind | Classes/Graphics/2d/Shapes/NodeShape.js:65 | binding a shape that is not rendered to a slot with no rendered shape keeps the scene valid |
| NodeShapes.Scene.MakeShape | Classes/Graphics/2d/Shapes/NodeShape.js:7-27 | a new shape gets the next id, no links, the initial state for its node and no connection set up |
| NodeShapes.Scene.AllocateLinks | Classes/Graphics/2d/Shapes/NodeShape.js:9-15 | the new shape's link fields: bound to its node and context, no parent, no children |
| NodeLinks.NoShapesValid | Classes/Graphics/2d/Shapes/NodeShape.js:7-27 | a scene with no shapes and empty registries satisfies the whole invariant over any well-formed data tree |
| NodeShapes.Scene.constructor | Classes/Graphics/2d/Shapes/NodeShape.js:7-27 | a context before any node shape is constructed: no shapes, empty registries and an empty notice log, and the scene is valid, so the invariant every operation keeps holds from the start |
| NodeShapes.Scene.Create | Classes/Graphics/2d/Shapes/NodeShape.js:7-27 | construction for a node with no shape in the context keeps the scene valid, gives a new unrendered shape with no links and the initial state, and binds it to the free slot |
| NodeShapes.Scene.MakeValid | Classes/Graphics/2d/Shapes/NodeShape.js:7-25 | the fields of a new shape in a valid scene, keeping it valid |
| NodeShapes.Scene.ShapeFor | Classes/Graphics/2d/Shapes/NodeShape.js:282-284 | the shape a node holds for the context, constructed and bound when it holds none; nothing else changes when it holds one |
| NodeShapes.Scene.Materialise | Classes/Graphics/2d/Shapes/NodeShape.js:282-285 | `shape.add()` on that shape: afterwards the node has a rendered shape, it is new when there was none, and no other node's rendered shape changes |
| NodeShapes.Scene.CreateChild | Classes/Graphics/2d/Shapes/NodeShape.js:325-337 | nothing when no data child is missing; otherwise the first missing child gets a new rendered shape, which is returned and listed as a child of a rendered shape, and the missing list loses exactly its head |
| NodeShapes.Scene.CreateChildren | Classes/Graphics/2d/Shapes/NodeShape.js:338-352 | every missing data child gets a rendered shape, in data order, the new shapes are returned, none is missing afterwards, and a rendered shape shows all its data children and is not collapsed; the returned shapes are exactly the shapes the call rendered, each new and listed once |
| NodeShapes.Scene.CreateAncestors | Classes/Graphics/2d/Shapes/NodeShape.js:289-302 | below depth 1 nothing happens; otherwise the scene only grows and a rendered shape ends up under depth levels of rendered ancestors; the shapes returned are exactly the shapes the call rendered, none listed twice, and for a rendered shape each of them is new |
| NodeShapes.Scene.CreateAbove | Classes/Graphics/2d/Shapes/NodeShape.js:294-299 | the body for depth at least 1 has the same outcome, including exactly which shapes are returned |
| NodeShapes.Scene.ParentFor | Classes/Graphics/2d/Shapes/NodeShape.js:295-296 | `createParent` as `createAncestors` uses it: a rendered shape whose node has a data parent ends up with a parent shape; the list returned holds the one shape `createParent` rendered, or is empty when it rendered none, and for a rendered shape that shape is new |
| NodeShapes.Scene.CreateFromParent | Classes/Graphics/2d/Shapes/NodeShape.js:298-299 | the recursive step: the parent shape creates its ancestors one level less high, and the shapes returned are exactly the new shapes rendered, each once |
| NodeShapes.Scene.CreateDescendants | Classes/Graphics/2d/Shapes/NodeShape.js:353-368 | below depth 1 nothing happens; otherwise the scene only grows, a rendered shape ends up showing its data subtree depth levels down, no child list above its level changes, and the returned shapes are exactly the shapes the call rendered, each new and listed once |
| NodeShapes.Scene.CreateEach | Classes/Graphics/2d/Shapes/NodeShape.js:361-365 | the loop over child shapes: the scene only grows, the parent's child list is unchanged, each child shows its data subtree one level less deep, and the concatenated results are exactly the new shapes rendered, each once |
| NodeShapes.Scene.CreateMissing | Classes/Graphics/2d/Shapes/NodeShape.js:344-350 | the `createChildren` loop renders every missing data child in order and leaves none missing; the rendered set grows by exactly the returned shapes, none twice |
| NodeShapes.Scene.CreateNext | Classes/Graphics/2d/Shapes/NodeShape.js:345-349 | one turn of that loop renders the first missing data child, a shape not rendered before, drops it from the missing list, and renders nothing else |
| NodeShapes.Scene.CreateParent | Classes/Graphics/2d/Shapes/NodeShape.js:277-288 | nothing when the shape has a parent or its node has no data parent; otherwise the data parent's shape (a new one when the node held none) is rendered and returned, and nothing else is rendered; for a rendered shape the returned shape was not rendered before; a rendered shape then has a parent |
| NodeShapes.Scene.PruneChild | Classes/Graphics/2d/Shapes/NodeShape.js:375 | `child.remove()` in the loop: the child is unrendered and childless, the parent loses it and is not expanded, nothing outside the parent's part or in a sibling's part changes |
| NodeShapes.Scene.DestroyChildren | Classes/Graphics/2d/Shapes/NodeShape.js:369-378 | the returned list is the shape's remaining children, exactly its former children in keep in their order; the others are unrendered and childless, the kept ones keep their parts, nothing outside the shape's part changes, and it is not expanded once a child went |
| NodeShapes.Scene.PruneBack | Classes/Graphics/2d/Shapes/NodeShape.js:372-376 | the backwards loop of `destroyChildren` runs down to the first child keeping the loop state |
| NodeShapes.Scene.PruneTurn | Classes/Graphics/2d/Shapes/NodeShape.js:373-375 | one turn of that loop keeps the loop state one index lower |
| NodeShapes.Scene.DestroyDescendants | Classes/Graphics/2d/Shapes/NodeShape.js:379-395 | the scene only shrinks and nothing outside the shape's part changes; the rendered shapes lose exactly `Razed` of the links before the call (by Razing.RazedSpec, every shape not in keep more than depth levels below with no keep shape on the way) and the list returned is exactly `Survivors` (the recursive lists in child order, then at depth at most 0 the shape's remaining children, which are its former children in keep); with depth at most 0 the shape keeps only its children in keep; only expanded flags are cleared |
| NodeShapes.Scene.DestroyEach | Classes/Graphics/2d/Shapes/NodeShape.js:386-390 | the loop over the children: the shape's child list is unchanged, the rendered shapes lose exactly what the calls on the children not in keep remove (`RazedOf`), and the list returned is their lists concatenated in child order (`SurvivorsOf`) |
| NodeShapes.Scene.DestroyParent | Classes/Graphics/2d/Shapes/NodeShape.js:303-308 | the parent, if any, is removed and returned; the shape then has no parent and the part at and below it is intact; nothing happens without a parent |
| NodeShapes.Scene.DestroyAncestors | Classes/Graphics/2d/Shapes/NodeShape.js:309-324 | nothing without a parent; otherwise the part at and below the shape is intact; with depth at most 0 the parent is removed and is the last shape returned, with depth above 0 it stays the shape's parent; when fully, every descendant of the parent outside the shape's subtree is gone (and a parent that stays has the shape as its only child); the list returned is exactly `Ascent` (by Razing.AscentSpec, the ancestors above the levels kept and, when fully, every shape from the shape up that has a parent); only expanded flags are cleared |
| NodeShapes.Scene.Ascend | Classes/Graphics/2d/Shapes/NodeShape.js:317-319 | the steps before the parent's removal keep the part at and below the shape intact and the shape's parent in place; when fully, the parent's other descendants are gone and the shape is its only child; the list returned is `[s]` when fully, then the parent's own `Ascent` one level less deep |
| NodeShapes.Scene.ClearIf | Classes/Graphics/2d/Shapes/NodeShape.js:317-318 | when fully, the parent destroys its descendants keeping the shape: the rendered shapes lose exactly `Razed(q, 0, [s])`, every descendant of the parent outside the shape's subtree (Razing.SiblingsRazed), and `[s]` is returned; otherwise nothing changes and nothing is returned |
| NodeShapes.Scene.ClearSiblings | Classes/Graphics/2d/Shapes/NodeShape.js:318 | the parent destroys all its descendants outside the shape's subtree and returns exactly `[s]`; the shape stays its only child and its own part is intact |
| NodeShapes.CreatingEnd | Classes/Graphics/2d/Shapes/NodeShape.js:353-368 | after the loop of `createDescendants()`, a rendered shape none of whose data children was missing shows its data subtree depth levels down, and no child list at its level or above changed |
| Razing.RazedSpec | Classes/Graphics/2d/Shapes/NodeShape.js:379-395 | a shape is removed by `destroyDescendants(d, keep)` on s exactly when it is not in keep and lies more than d levels below s with no shape in keep between them |
| Razing.RazedEverything | Classes/Graphics/2d/Shapes/NodeShape.js:379-395 | with nothing kept, the shapes removed are exactly the descendants of s that are not within the d levels kept |
| Razing.SurvivorsSpec | Classes/Graphics/2d/Shapes/NodeShape.js:379-395 | a shape is in the list `destroyDescendants(d, keep)` returns exactly when it is in keep and lies more than d levels below s with no shape in keep between them |
| Razing.SurvivorsNone | Classes/Graphics/2d/Shapes/NodeShape.js:379-395 | with nothing kept, `destroyDescendants` returns the empty list |
| Razing.SiblingsRazed | Classes/Graphics/2d/Shapes/NodeShape.js:317-318 | `parent.destroyDescendants(0, [this])` removes exactly the parent's descendants outside the shape's subtree |
| Razing.SiblingsSurvivors | Classes/Graphics/2d/Shapes/NodeShape.js:317-318 | `parent.destroyDescendants(0, [this])` returns exactly `[this]` |
| Razing.AscentSpec | Classes/Graphics/2d/Shapes/NodeShape.js:309-324 | a shape is in the list `destroyAncestors(d, fully)` returns exactly when it is an ancestor above the d levels kept or, when fully, it is the shape or one of its ancestors and has a parent |
| Teardown.GoneParent | Classes/Graphics/2d/Shapes/NodeShape.js:320-321 | with depth at most 0 the parent goes after the earlier steps, is appended last to the list, and the whole result is the described one |
| Teardown.GoneKept | Classes/Graphics/2d/Shapes/NodeShape.js:316-319 | with depth above 0 the result of the earlier steps is already the described one |
| Teardown.GoneNone | Classes/Graphics/2d/Shapes/NodeShape.js:315-316 | without a parent nothing changes and nothing is returned |
| NodeShapes.Scene.NotifyOwn | Classes/Graphics/2d/Shapes/NodeShape.js:402-404 | the context is notified, once, exactly when the flag differs from the value asked for |
| NodeShapes.Scene.Notify | Classes/Graphics/2d/Shapes/NodeShape.js:398-437 | the shapes that notify are exactly the targets: none when the flag already has the value, otherwise the shape itself and, unless the call was forwarded, every peer whose flag differs; each notifies once, so forwarding is a single hop |
| NodeShapes.Scene.ForwardPeers | Classes/Graphics/2d/Shapes/NodeShape.js:398-408 | each peer of the shape gets the forwarded call once and notifies exactly when its flag differs |
| NodeShapes.Scene.ForwardOne | Classes/Graphics/2d/Shapes/NodeShape.js:406-408 | one forwarded call on a peer notifies exactly when its flag differs |
| NodeShapes.Scene.Select | Classes/Graphics/2d/Shapes/NodeShape.js:402-410 | `select` keeps the scene valid and sends one notice per target shape |
| NodeShapes.Scene.Deselect | Classes/Graphics/2d/Shapes/NodeShape.js:411-419 | `deselect` keeps the scene valid and sends one clearing notice per target shape |
| NodeShapes.Scene.Focus | Classes/Graphics/2d/Shapes/NodeShape.js:420-428 | `focus` keeps the scene valid and sends one notice per target shape |
| NodeShapes.Scene.Defocus | Classes/Graphics/2d/Shapes/NodeShape.js:429-437 | `defocus` keeps the scene valid and sends one clearing notice per target shape |
| AbstractShapes.Adjoin | Classes/Graphics/AbstractShape.js:296-301 | after `on*` the listener is present, nothing else is added, the old list is a prefix, the list grows by at most one, a present listener leaves the list unchanged, and no duplicate is ever introduced |
| AbstractShapes.OffUndoesOn | Classes/Graphics/AbstractShape.js:296-307 | `off*` after `on*` of a new listener gives the original list back |
| AbstractShapes.OnAfterOff | Classes/Graphics/AbstractShape.js:296-307 | `on*` after `off*` of a present listener keeps the same listeners, with no duplicate, and moves it to the end |
| AbstractShapes.ShiftedCallback | Classes/Graphics/AbstractShape.js:230-245 | a function passed as friction, or else as speed, becomes the waiting callback whatever onReach is, and the friction or speed setting it displaced keeps its previous value; a friction that was not a function never becomes one |
| AbstractShapes.WaitingCallbackMoves | Classes/Graphics/AbstractShape.js:229-247 | a setter call with no function and no truthy onReach keeps the callback that is still waiting, and that callback fires once on arrival at the new target |
| AbstractShapes.RetargetValueOnly | Classes/Graphics/AbstractShape.js:239-245 | a setter call with only the value keeps every other setting |
| AbstractShapes.RetargetIdempotent | Classes/Graphics/AbstractShape.js:229-247 | repeating a setter call changes nothing more |
| AbstractShapes.ArriveOnce | Classes/Graphics/AbstractShape.js:102-111 | the callback fires exactly when there is a target, it has arrived and a callback waits; it is cleared, so it cannot fire again on a later tick; the target value is kept; nothing changes when it does not fire |
| AbstractShapes.LooseTolerance | Classes/Graphics/AbstractShape.js:477-508 | a loose box holds the tight box for every move of at most half the radius on each axis, so such moves do not touch the spatial tree |
| AbstractShapes.LooseEscape | Classes/Graphics/AbstractShape.js:488-493 | after a move of more than half the radius on an axis the loose box no longer holds the tight box |
| AbstractShapes.Search | Classes/Graphics/AbstractShape.js:516-540 | no tree gives no result; otherwise the result is what the tree finds minus the shape itself and minus what the filter rejects, everything else the tree finds is kept, and the result keeps the tree's order (a subsequence of its answer, as `Array.filter` leaves it) |
| AbstractShapes.Shape.constructor | Classes/Graphics/AbstractShape.js:7-78 | empty listener lists, no targets, the default frictions 0.8/0.8/0.7 and speeds 1/1/2, not rendered, updates enabled, and the first `__updateAABB`: for a shape stored in the spatial tree with a positive radius, the loose box around the origin and entry into the tree when there is one; otherwise the zero box and the tree unchanged |
| AbstractShapes.Shape.OnHover | Classes/Graphics/AbstractShape.js:296-301 | the hover list becomes Adjoin of the old list |
| AbstractShapes.Shape.OffHover | Classes/Graphics/AbstractShape.js:302-307 | the hover list loses the listener if present and is otherwise unchanged |
| AbstractShapes.Shape.OnClick | Classes/Graphics/AbstractShape.js:317-322 | the click list becomes Adjoin of the old list |
| AbstractShapes.Shape.OffClick | Classes/Graphics/AbstractShape.js:323-328 | the click list loses the listener if present and is otherwise unchanged |
| AbstractShapes.Shape.OnMouseEvent | Classes/Graphics/AbstractShape.js:344-349 | the mouse list becomes Adjoin of the old list |
| AbstractShapes.Shape.OffMouseEvent | Classes/Graphics/AbstractShape.js:350-355 | the mouse list loses the listener if present and is otherwise unchanged |
| AbstractShapes.Shape.OnUpdate | Classes/Graphics/AbstractShape.js:381-386 | the update list becomes Adjoin of the old list; unless updates are disabled the shape is then in the context's active set |
| AbstractShapes.Shape.OffUpdate | Classes/Graphics/AbstractShape.js:387-393 | the update list loses the listener; unless updates are disabled the shape stays active exactly while listeners remain |
| AbstractShapes.Shape.UpdateUpdates | Classes/Graphics/AbstractShape.js:401-407 | unless updates are disabled, the shape is active exactly when it has update listeners; the disabled flag never changes |
| AbstractShapes.Shape.EnableUpdates | Classes/Graphics/AbstractShape.js:408-412 | only a call from outside clears the disabled flag; the shape becomes active either way |
| AbstractShapes.Shape.DisableUpdates | Classes/Graphics/AbstractShape.js:413-417 | only a call from outside sets the disabled flag; the shape stops being active either way |
| AbstractShapes.Shape.SetTargetLoc | Classes/Graphics/AbstractShape.js:229-247 | the location target is retargeted as Retarget gives and the location velocity becomes zero |
| AbstractShapes.Shape.SetTargetRot | Classes/Graphics/AbstractShape.js:248-265 | the rotation target is retargeted; velocities are untouched |
| AbstractShapes.Shape.SetTargetScale | Classes/Graphics/AbstractShape.js:266-283 | the scale target is retargeted; velocities are untouched |
| AbstractShapes.Shape.Tick | Classes/Graphics/AbstractShape.js:102-131 | each of the three targets goes through the arrival rule, and the callbacks that fire are returned in the order location, rotation, scale |
| AbstractShapes.Shape.SetParentShape | Classes/Graphics/AbstractShape.js:420-423 | the parent shape becomes the argument |
| AbstractShapes.Shape.Add | Classes/Graphics/AbstractShape.js:435-445 | the shape is registered and rendered, enters the spatial tree only when there is one and it is stored there, and, unless updates are disabled, enters the context's active set when it has update listeners and leaves it otherwise, with no other active shape changed |
| AbstractShapes.Shape.Remove | Classes/Graphics/AbstractShape.js:446-450 | the shape is deregistered; with dontDelete nothing else changes; otherwise it is deleted |
| AbstractShapes.Shape.Delete | Classes/Graphics/AbstractShape.js:451-461 | the shape is deregistered, inactive with the disabled flag untouched, out of the spatial tree when it was stored there, and not rendered |
| AbstractShapes.Shape.UpdateAABB | Classes/Graphics/AbstractShape.js:483-515 | nothing changes unless the shape is stored in the spatial tree and the tight box has left the loose box; then the loose box becomes loc ± 1.5·radius and the shape is reinserted; afterwards the box holds the tight box |
| CompoundShapes.Extents | Classes/Graphics/2d/Shapes/CompoundShape.js:54-59 | one extent per sub-shape, in list order |
| CompoundShapes.LeastSpec | Classes/Graphics/2d/Shapes/CompoundShape.js:47-60 | the minimum fold is +Infinity exactly for no sub-shapes, and otherwise a finite lower bound of every sub-shape's coordinate that some sub-shape attains |
| CompoundShapes.GreatestSpec | Classes/Graphics/2d/Shapes/CompoundShape.js:47-60 | the maximum fold is -Infinity exactly for no sub-shapes, and otherwise a finite upper bound of every sub-shape's coordinate that some sub-shape attains |
| CompoundShapes.SpanCovers | Classes/Graphics/2d/Shapes/CompoundShape.js:76-79 | for a non-empty list the size is finite, at least the box's extent, and at least twice each side's distance from the origin |
| CompoundShapes.SpanEmpty | Classes/Graphics/2d/Shapes/CompoundShape.js:76-79 | for an empty list the size is -Infinity |
| CompoundShapes.Compound.constructor | Classes/Graphics/2d/Shapes/CompoundShape.js:7-9 | a new compound has no sub-shapes |
| CompoundShapes.Compound.AddShape | Classes/Graphics/2d/Shapes/CompoundShape.js:23-31 | the arguments are appended in order, each gets the compound as parent shape, and size and pivot are redrawn |
| CompoundShapes.Compound.RemoveShape | Classes/Graphics/2d/Shapes/CompoundShape.js:32-43 | the first occurrence of each argument is removed in turn; present arguments lose their parent shape, absent ones keep it; size and pivot are redrawn |
| CompoundShapes.Compound.RemoveNext | Classes/Graphics/2d/Shapes/CompoundShape.js:34-39 | one loop turn: the list built so far loses the next argument |
| CompoundShapes.Compound.RemoveOne | Classes/Graphics/2d/Shapes/CompoundShape.js:35-39 | the first occurrence is spliced out and its parent shape cleared; an absent argument changes nothing |
| CompoundShapes.Compound.Redraw | Classes/Graphics/2d/Shapes/CompoundShape.js:46-81 | size and pivot are those of the fold over the current sub-shapes: size twice the larger side distance, pivot the negated minimum |
| CompoundShapes.RemovedShrinks | Classes/Graphics/2d/Shapes/CompoundShape.js:32-43 | removal only takes shapes away |
| CompoundShapes.RemovedGone | Classes/Graphics/2d/Shapes/CompoundShape.js:32-43 | a shape that was in the list and is gone was an argument |
| CompoundShapes.RemovedMultiset | Classes/Graphics/2d/Shapes/CompoundShape.js:32-43 | removing the arguments one by one is a multiset difference: each shape loses as many occurrences as it is passed, as far as the list has them |

## Left out

- The `remove(true)` path of `NodeShape2d.remove` (Classes/Graphics/2d/Shapes/NodeShape.js:94-108 passes `fully` on as the base class's `dontDelete`) is not part of this model. The base-class behaviour is modelled by `AbstractShapes.Shape.Remove`. In the node-shape scene the shape would stay rendered with stale registry entries until the context's delayed delete, which is outside the core.
- The implicit global `parent` assigned at Classes/Graphics/2d/Shapes/NodeShape.js:96 is treated as a local variable.
- The stray array-like entries that `getAncestors` writes onto the parent object (line 191) are not modelled; only the returned array is.
- NodeShapes.Scene.LinkParent: when the data parent exists but holds no shape for the context, the source dereferences the missing shape at Classes/Graphics/2d/Shapes/NodeShape.js:227 and throws. The model treats that case as "no rendered parent shape", the corrected lookup of the line-227 Findings row.
- NodeShapes.Scene.RegisterShape: follows the corrected registration of the line-72-74 Findings row. It enters a rendered shape into the root and leaf registries only as its links say, where the source enters it into both unconditionally.
- NodeShapes.Scene.AddSteps: follows the corrected registration of the line-72-74 Findings row, so it changes nothing on a rendered shape. The source then puts a shape with a parent into the roots and one with children into the leaves.
- NodeShapes.Scene.AddCore: follows the corrected registration (line 72-74 Findings row) and the corrected parent lookup (line 227 Findings row). The source re-registers a rendered shape, and it throws where the data parent holds no shape.
- NodeShapes.Scene.AddValid: the same two corrections as AddCore.
- NodeShapes.Scene.Add: the same two corrections as AddCore. "No change when already rendered" and success on every bound shape hold for the corrected `add()`, not for the source's.
- LinkAdd.RenderedSteps: its `Register(t, r, s) == r` is the corrected registration of the line-72-74 Findings row. The source's registration changes the roots or leaves of a rendered shape with a parent or children.
- NodeShapes.Scene.Materialise: `shape.add()` on the data parent's shape uses both corrections. The source re-registers that shape when it is already rendered, and throws when its own data parent holds no shape.
- NodeShapes.Scene.CreateParent: uses both corrections. The source re-registers a data-parent shape that is already rendered, and throws at line 227 when the data grandparent holds no shape, after the parent shape is rendered and before the child is linked.
- NodeShapes.Scene.ParentFor: promises a parent shape by way of the corrected `add()`. On the line-227 input the source throws inside `createParent`.
- NodeShapes.Scene.CreateAbove: promises depth shown levels by way of the corrected `add()`. On the line-227 input the source throws.
- NodeShapes.Scene.CreateFromParent: its recursion goes through `createParent`, so on the line-227 input the source throws where the contract promises shown levels.
- NodeShapes.Scene.Create: requires the node's slot for the context to be free, which is how the materialisers construct. Constructing over an occupied slot is modelled in two steps: construction, then `__init` (NodeShapes.Scene.Init) on the existing shape.
- NodeShapes.Scene.CreateAncestors: it uses the corrected `add()` of both Findings rows above, so it succeeds on the line-227 input where the source throws. Also, for a shape that is not rendered, the contract states that the scene grows and that the returned list is exactly the shapes rendered, each once. It does not state how many levels are shown.
- NodeShapes.Scene.DestroyAncestors: the contract states the list returned exactly, and the effect at the shape and its parent: the parent's removal at depth at most 0 and, when fully, the removal of all the parent's other descendants. It does not state which shapes the recursive call removes at ancestors further up, beyond that nothing is added and the part at and below the shape is intact.
- NodeShapes.Scene.Notify: the context's reaction to a notice (setting the selected or focused flag through `selectShape`/`focusShape`) is not part of this model. Notices are appended to a log.
  - `forwardToShapes` is modelled as reaching every shape of the node in the other contexts once, in an unspecified order.
  - The same call re-entered from the context is not modelled.
- The `__stateChanged` and `__setupConnection` hooks are external. `NodeStates.ChangeState` states what a hook call receives, and the scene records only the resulting state and the `connectionHasBeenSetup` flag (taking the hook's answer as a parameter).
- `__getClass` (the shape class chosen for a node) is not modelled: all node shapes share one model. The same goes for `console.warn` in `__init`, `getConnectedNodeShape`, `isParent`, `isChild` and `getDepth`.
- AbstractShapes.Shape.Tick: the per-tick integration of `__onUpdate` (velocities, friction and speed blending, Classes/Graphics/AbstractShape.js:88-131) is floating-point numerics over `Vec`/`XYZ`. Only the arrival-callback rule is modelled, with each arrival test given as a boolean. The fired callbacks are returned and not run: the source runs a callback before clearing its slot (lines 108-109, 118-119, 129-130), so a callback that sets a new target with a new onReach loses that onReach at once. The model clears the slot and does not capture this re-entry.
- Event dispatch to listener closures (`__trigger*`) is not modelled: listeners are opaque ids. `__updateInteraction` and `enableInteraction`/`disableInteraction` change no modelled state.
- The `onChange` hooks on location and velocity (Classes/Graphics/AbstractShape.js:65-74 and Classes/Graphics/2d/Shapes/CompoundShape.js:11-16) are not modelled. `UpdateAABB` and `UpdateUpdates` are methods the caller invokes.
- The spatial tree is modelled as the set of stored shape ids. `Search` takes the tree's answer for the query box as a parameter, because the R-tree implementation is not part of this model.
- `__getRadius` is a parameter. The base class returns 0. `CompoundShape2d.__getRadius` and `RoundedRectangle2d` use `Math.sqrt` on floats and are left out, as is PIXI rendering: `__createGfx`, the RenderTexture baking in `CompoundShape2d.__redraw` (lines 62-73) and `RoundedRectangle2d.__redraw`.
- Coordinates are exact reals. Floating-point rounding and NaN extents are not modelled. The fold's infinities are the `CompoundShapes.Ext` values.
- Tests/Visualisation/Visualisations/Example3d.js is a demo page and is not part of this model.

## Findings

| source | as written | input that shows it | evidently intended | confidence | as-written member | corrected member |
|---|---|---|---|---|---|---|
| Classes/Graphics/2d/Shapes/NodeShape.js:72-74 | `add()` registers the shape as root and leaf unconditionally | `add()` called again on a rendered shape that has a parent shape (or children): it enters the root (or leaf) registry although it is not a root (or leaf) | register as root only without a parent, as leaf only without children; re-adding a rendered shape changes nothing | not executed | LinkRegister.RegisterAsWrittenBreaksRoots | LinkRegister.RegisterRendered |
| Classes/Graphics/2d/Shapes/NodeShape.js:191 | `getAncestors` pushes the recursive result onto the parent object `p` instead of onto `ret` | a shape with a parent and a grandparent, `getAncestors(2)`: returns only the parent | the chain of ancestors up to `depth` levels, nearest first | not executed | NodeQueries.AncestorsAsWrittenStops | NodeQueries.AncestorsSpec |
| Classes/Graphics/2d/Shapes/NodeShape.js:200 | `getAncestorsTo` calls `getAncestors(depth-1)` with no `depth` in scope | `getAncestorsTo(x)` on a shape whose parent exists and is not `x`: a ReferenceError | the ancestors up to, and not including, `x` | not executed | NodeQueries.AncestorsToThrows | NodeQueries.AncestorsToSpec |
| Classes/Graphics/2d/Shapes/NodeShape.js:227 | `__getParentFromNode` calls `getIsRendered()` on the data parent's shape without checking that there is one | the first `add()` of any shape whose data parent holds no shape for the context, e.g. a new shape for node 2 of the chain 0 → 1 → 2 with no shapes yet; likewise `createParent()` on that unrendered shape, whose new parent shape's `add()` throws a TypeError after that shape is registered | a data parent without a shape for the context gives no parent shape, as the guards at lines 225 and 227 and the `if(!shape)` at line 283 intend | not executed | ParentLookup.FirstAddThrows | LinkAdd.AddSound |
