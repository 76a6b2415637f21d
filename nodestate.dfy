/** The per-shape state record of a node shape and the `__changeState`
    rule that reports a change to the appearance hook. */
module NodeStates {
  import opened Util

  datatype Field = Hover | Expanded | Selected | Focused | Dragged

  datatype State = State(hover: bool, expanded: bool, selected: bool, focused: bool, dragged: bool)

  /** The arguments handed to the `__stateChanged(field, value, oldState)`
      hook: the field and value only when the value changed, and always
      the snapshot taken before the change. */
  datatype HookCall = HookCall(field: Option<Field>, value: Option<bool>, prior: State)

  /** The state of a freshly constructed shape: only `expanded` may be set,
      and it is set exactly when the node has no children to show. */
  function Initial(childCount: nat): (st: State)
    ensures st.expanded <==> childCount == 0
    ensures !st.hover && !st.selected && !st.focused && !st.dragged
  {
    State(false, childCount == 0, false, false, false)
  }

  function Get(st: State, f: Field): bool {
    match f
    case Hover => st.hover
    case Expanded => st.expanded
    case Selected => st.selected
    case Focused => st.focused
    case Dragged => st.dragged
  }

  function Set(st: State, f: Field, v: bool): (r: State)
    ensures Get(r, f) == v
    ensures forall g :: g != f ==> Get(r, g) == Get(st, g)
  {
    match f
    case Hover => st.(hover := v)
    case Expanded => st.(expanded := v)
    case Selected => st.(selected := v)
    case Focused => st.(focused := v)
    case Dragged => st.(dragged := v)
  }

  /** `__changeState(field, value)`: the new state and the hook call. */
  function ChangeState(st: State, f: Field, v: bool): (r: (State, HookCall))
    ensures Get(r.0, f) == v
    ensures forall g :: g != f ==> Get(r.0, g) == Get(st, g)
    ensures r.1.prior == st
    ensures r.1.field.Some? <==> Get(st, f) != v
    ensures r.1.field.Some? ==> r.1.field == Some(f) && r.1.value == Some(v)
    ensures r.1.field.None? ==> r.1.value.None? && r.0 == st
  {
    var changed := Get(st, f) != v;
    (Set(st, f, v), HookCall(if changed then Some(f) else None, if changed then Some(v) else None, st))
  }

  /** Repeating a state change reports no change the second time and leaves
      the state as the first call left it. */
  lemma ChangeStateIdempotent(st: State, f: Field, v: bool)
    ensures ChangeState(ChangeState(st, f, v).0, f, v).0 == ChangeState(st, f, v).0
    ensures ChangeState(ChangeState(st, f, v).0, f, v).1.field.None?
  {
  }
}
