/**
 * The environment chain of src/env.rs. Frames live in a store indexed by
 * frame references; a frame's parent always has a smaller reference, so
 * chains are acyclic and several frames (and closures) can share an
 * ancestor, as `Rc<RefCell<Env>>` handles do.
 */
module Environment {
  import opened Wrappers
  import opened LispErrors
  import opened LispVal

  datatype Frame = Frame(parent: Option<FrameRef>, vars: map<string, Value>)

  /** All frames, and the next unused reference. */
  datatype Store = Store(frames: map<FrameRef, Frame>, next: FrameRef)

  ghost predicate ParentBelow(st: Store, id: FrameRef)
    requires id in st.frames
  {
    match st.frames[id].parent
    case None => true
    case Some(p) => p in st.frames && p < id
  }

  /** Every frame is allocated below `next`, and every parent link points to an older frame. */
  ghost predicate Valid(st: Store)
  {
    forall id | id in st.frames :: id < st.next && ParentBelow(st, id)
  }

  /** Allocation of a frame with the given parent: `Env::new()` for `None`, `Env::child` otherwise. */
  function Alloc(st: Store, parent: Option<FrameRef>): (r: (Store, FrameRef))
    requires Valid(st)
    requires parent.Some? ==> parent.value in st.frames
    ensures Valid(r.0)
    ensures r.1 !in st.frames && r.0.frames == st.frames[r.1 := Frame(parent, map[])]
    ensures forall id | id in st.frames :: id < r.1
  {
    (Store(st.frames[st.next := Frame(parent, map[])], st.next + 1), st.next)
  }

  /** `Env::new()`: a root frame with no bindings. */
  function NewRoot(st: Store): (r: (Store, FrameRef))
    requires Valid(st)
    ensures Valid(r.0) && r.1 in r.0.frames
    ensures r.0.frames[r.1] == Frame(None, map[])
  {
    Alloc(st, None)
  }

  /** `Env::child(parent)`: a frame with no bindings whose parent is `p`. */
  function Child(st: Store, p: FrameRef): (r: (Store, FrameRef))
    requires Valid(st) && p in st.frames
    ensures Valid(r.0) && r.1 in r.0.frames && r.1 !in st.frames
    ensures r.0.frames[r.1] == Frame(Some(p), map[])
    ensures forall id | id in st.frames :: id in r.0.frames && r.0.frames[id] == st.frames[id]
  {
    Alloc(st, Some(p))
  }

  /** `Env::get`: the local binding if there is one, else the parent's. */
  function Get(st: Store, id: FrameRef, name: string): Option<Value>
    requires Valid(st) && id in st.frames
    decreases id
  {
    var f := st.frames[id];
    if name in f.vars then Some(f.vars[name])
    else match f.parent
      case None => None
      case Some(p) => Get(st, p, name)
  }

  /** The store with `name` bound to `val` in frame `id`. */
  function Bind(st: Store, id: FrameRef, name: string, val: Value): (r: Store)
    requires Valid(st) && id in st.frames
    ensures Valid(r) && r.frames.Keys == st.frames.Keys
  {
    st.(frames := st.frames[id := st.frames[id].(vars := st.frames[id].vars[name := val])])
  }

  /** `Env::define`: bind in the local frame, overwriting; never fails. */
  function Define(st: Store, id: FrameRef, name: string, val: Value): (r: (Result<Value, LispErr>, Store))
    requires Valid(st) && id in st.frames
    ensures r.0 == Ok(val) && Valid(r.1)
    ensures r.1.frames.Keys == st.frames.Keys
    ensures Get(r.1, id, name) == Some(val)
    ensures forall k | k in st.frames && k != id :: r.1.frames[k] == st.frames[k]
    ensures r.1.frames[id].parent == st.frames[id].parent
    ensures r.1.frames[id].vars == st.frames[id].vars[name := val]
  {
    (Ok(val), Bind(st, id, name, val))
  }

  /**
   * `Env::set`: overwrite the binding in the innermost frame of the chain
   * that has `name`; fail when no frame of the chain has it.
   */
  function Set(st: Store, id: FrameRef, name: string, val: Value): (r: (Result<Value, LispErr>, Store))
    requires Valid(st) && id in st.frames
    ensures Valid(r.1) && r.1.frames.Keys == st.frames.Keys
    ensures r.0.Err? <==> Get(st, id, name).None?
    ensures r.0.Err? ==> r.0.error == Runtime("Variable is not defined") && r.1 == st
    ensures r.0.Ok? ==> r.0.value == val && Get(r.1, id, name) == Some(val)
    ensures r.0.Ok? ==> Resolve(st, id, name).Some? && r.1 == Bind(st, Resolve(st, id, name).value, name, val)
    decreases id
  {
    var f := st.frames[id];
    if name in f.vars then
      (Ok(val), Bind(st, id, name, val))
    else match f.parent
      case None => (Err(Runtime("Variable is not defined")), st)
      case Some(p) => Set(st, p, name, val)
  }

  /** The frames of the chain starting at `id`, innermost first. */
  function Chain(st: Store, id: FrameRef): (c: seq<FrameRef>)
    requires Valid(st) && id in st.frames
    ensures |c| > 0 && c[0] == id
    ensures forall i | 0 <= i < |c| :: c[i] in st.frames && c[i] <= id
    decreases id
  {
    match st.frames[id].parent
    case None => [id]
    case Some(p) => [id] + Chain(st, p)
  }

  /** The index of the first frame of `c` that binds `name`, if any. */
  function FirstBinding(st: Store, c: seq<FrameRef>, name: string): (r: Option<nat>)
    requires forall i | 0 <= i < |c| :: c[i] in st.frames
    ensures r.Some? ==> r.value < |c| && name in st.frames[c[r.value]].vars
    ensures forall j | 0 <= j < |c| && (r.None? || j < r.value) :: name !in st.frames[c[j]].vars
  {
    if c == [] then None
    else if name in st.frames[c[0]].vars then Some(0)
    else match FirstBinding(st, c[1..], name)
      case None => None
      case Some(i) => Some(i + 1)
  }

  /** The innermost frame of the chain from `id` that binds `name`. */
  function Resolve(st: Store, id: FrameRef, name: string): (r: Option<FrameRef>)
    requires Valid(st) && id in st.frames
    ensures r.Some? ==> r.value in st.frames && r.value <= id && name in st.frames[r.value].vars
  {
    var c := Chain(st, id);
    match FirstBinding(st, c, name)
    case None => None
    case Some(i) => Some(c[i])
  }

  /** Two stores that agree on every frame up to `id` give the same lookups from `id`. */
  lemma {:induction false} GetReadsOnlyOlderFrames(st: Store, st': Store, id: FrameRef, name: string)
    requires Valid(st) && Valid(st') && id in st.frames
    requires forall k | k <= id :: (k in st.frames <==> k in st'.frames)
    requires forall k | k <= id && k in st.frames :: st'.frames[k] == st.frames[k]
    ensures id in st'.frames && Get(st', id, name) == Get(st, id, name)
    decreases id
  {
    var f := st.frames[id];
    if name !in f.vars && f.parent.Some? {
      GetReadsOnlyOlderFrames(st, st', f.parent.value, name);
    }
  }

  /** `Env::get` returns the binding of the innermost frame of the chain that has the name. */
  lemma {:induction false} GetFindsInnermostBinding(st: Store, id: FrameRef, name: string)
    requires Valid(st) && id in st.frames
    ensures Get(st, id, name) == match Resolve(st, id, name)
                                 case None => None
                                 case Some(k) => Some(st.frames[k].vars[name])
    decreases id
  {
    var f := st.frames[id];
    if name !in f.vars && f.parent.Some? {
      var p := f.parent.value;
      GetFindsInnermostBinding(st, p, name);
      var c := Chain(st, id);
      assert c[1..] == Chain(st, p);
    }
  }

  /** A fresh child sees exactly what its parent sees, and allocating it disturbs no lookup. */
  lemma ChildSeesParent(st: Store, p: FrameRef, name: string)
    requires Valid(st) && p in st.frames
    ensures var (st', c) := Child(st, p);
            Get(st', c, name) == Get(st, p, name) &&
            forall id | id in st.frames :: Get(st', id, name) == Get(st, id, name)
  {
    var (st', c) := Child(st, p);
    GetReadsOnlyOlderFrames(st, st', p, name);
    forall id | id in st.frames
      ensures Get(st', id, name) == Get(st, id, name)
    {
      GetReadsOnlyOlderFrames(st, st', id, name);
    }
  }

  /**
   * `define` only shadows: every lookup from an older frame (which takes in
   * every ancestor of `id`) is unchanged, and so is every other name from `id`.
   */
  lemma DefineOnlyShadows(st: Store, id: FrameRef, name: string, val: Value, a: FrameRef, other: string)
    requires Valid(st) && id in st.frames && a in st.frames && a < id && other != name
    ensures var st' := Define(st, id, name, val).1;
            Get(st', a, other) == Get(st, a, other) &&
            Get(st', a, name) == Get(st, a, name) &&
            Get(st', id, other) == Get(st, id, other)
  {
    var st' := Define(st, id, name, val).1;
    GetReadsOnlyOlderFrames(st, st', a, other);
    GetReadsOnlyOlderFrames(st, st', a, name);
    var f := st.frames[id];
    if other !in f.vars && f.parent.Some? {
      GetReadsOnlyOlderFrames(st, st', f.parent.value, other);
    }
  }

  /** `set` never adds a name: every frame keeps its parent and its set of bound names. */
  lemma SetAddsNoName(st: Store, id: FrameRef, name: string, val: Value)
    requires Valid(st) && id in st.frames
    ensures var st' := Set(st, id, name, val).1;
            forall k | k in st.frames ::
              st'.frames[k].parent == st.frames[k].parent &&
              st'.frames[k].vars.Keys == st.frames[k].vars.Keys
  {
    var r := Set(st, id, name, val);
    if r.0.Ok? {
      var b := Resolve(st, id, name).value;
      assert r.1 == Bind(st, b, name, val);
      assert name in st.frames[b].vars;
    }
  }

  /**
   * Frames are shared: when two children of `p` reach a binding of `p`,
   * a `set` through the first is seen by a `get` through the second.
   */
  lemma SetThroughSharedParent(st: Store, p: FrameRef, c1: FrameRef, c2: FrameRef, name: string, val: Value)
    requires Valid(st) && c1 in st.frames && c2 in st.frames && p in st.frames
    requires st.frames[c1].parent == Some(p) && st.frames[c2].parent == Some(p)
    requires name !in st.frames[c1].vars && name !in st.frames[c2].vars
    requires name in st.frames[p].vars
    ensures var (r, st') := Set(st, c1, name, val);
            r == Ok(val) && Get(st', c2, name) == Some(val)
  {
    assert Set(st, c1, name, val) == Set(st, p, name, val);
    var st' := Bind(st, p, name, val);
    assert st'.frames[c2] == st.frames[c2];
    assert Get(st', c2, name) == Get(st', p, name);
  }
}
