/**
 * The model object of Src/CoreModel.cpp: construction from an option bag,
 * the id counter, the value slots and their property setters, the
 * callback-presence predicates and the composition of a model's local matrix.
 */
module CoreModel {
  import opened JsValues

  /** The counter behind CURRENT_MODEL_ID: the next id to hand out and, as a ghost, every id handed out. */
  class IdCounter {
    var next: int
    ghost var issued: seq<int>

    ghost predicate Valid()
      reads this
    {
      && next >= 1
      && (forall i, j :: 0 <= i < j < |issued| ==> issued[i] < issued[j])
      && (forall i :: 0 <= i < |issued| ==> issued[i] < next)
    }

    /** The counter at program start: the first model gets id 1. */
    constructor ()
      ensures Valid() && next == 1 && issued == []
    {
      next := 1;
      issued := [];
    }

    /** Hands out the current value and increments: each id is larger than every id before it. */
    method Allocate() returns (id: int)
      requires Valid()
      modifies this
      ensures Valid()
      ensures id == old(next) && next == old(next) + 1 && issued == old(issued) + [id]
      ensures forall k :: 0 <= k < |old(issued)| ==> old(issued)[k] < id
    {
      id := next;
      next := next + 1;
      issued := issued + [id];
    }
  }

  /** The value slots of a model, one per property. */
  datatype Slot =
    | Geometry | Program | BaseMatrix | Position | Rotation | Scale
    | OnFrame | OnGazeHoverOver | OnGazeHoverOut | OnGestureTouchDown | OnGestureTouchUp | OnGestureTouchCancel
  {
    /** The option the constructor reads the slot from. */
    function OptionName(): string
    {
      match this
      case Geometry => "geometry"
      case Program => "program"
      case BaseMatrix => "transform"
      case Position => "position"
      case Rotation => "rotation"
      case Scale => "scale"
      case OnFrame => "onFrame"
      case OnGazeHoverOver => "onGazeHoverOver"
      case OnGazeHoverOut => "onGazeHoverOut"
      case OnGestureTouchDown => "onGestureTouchDown"
      case OnGestureTouchUp => "onGestureTouchUp"
      case OnGestureTouchCancel => "onGestureTouchCancel"
    }

    predicate IsCallback()
    {
      OnFrame? || OnGazeHoverOver? || OnGazeHoverOut? || OnGestureTouchDown? || OnGestureTouchUp? || OnGestureTouchCancel?
    }

    /** The slots that default when absent: the transform state. */
    predicate IsTransform()
    {
      BaseMatrix? || Position? || Rotation? || Scale?
    }
  }

  /** The slots a model holds: a slot absent from the map is empty. */
  type Slots = map<Slot, Value>

  const EXPECTED_OBJECT := "Unexpected argument (expected object)"

  /** A default-constructed vector: all three components zero. */
  const ZERO3: seq<real> := [0.0, 0.0, 0.0]

  /** The value a transform slot takes when its option is absent or null. */
  function DefaultFor(s: Slot): Value
    requires s.IsTransform()
  {
    if s == BaseMatrix then Matrix(Identity()) else Vector(ZERO3)
  }

  /** A transform option with its default filled in. */
  function Defaulted(opts: Options, s: Slot): Value
    requires s.IsTransform()
  {
    var v := Get(opts, s.OptionName());
    if v.IsNullOrUndefined() then DefaultFor(s) else v
  }

  /** Stores a callback option when it is set, leaving the slot empty when it is absent or null. */
  function WithCallback(slots: Slots, opts: Options, s: Slot): Slots
  {
    var v := Get(opts, s.OptionName());
    if v.IsNullOrUndefined() then slots else slots[s := v]
  }

  /**
   * The slots CoreModel_constructor fills from an option bag, or the error
   * it reports: geometry and program must be objects; the transform options
   * default when absent or null and must otherwise be objects; the callbacks
   * are stored as given unless absent or null.
   */
  function Resolve(opts: Options): Result<Slots, Failure>
  {
    if !Get(opts, "geometry").IsObject() || !Get(opts, "program").IsObject()
       || !Defaulted(opts, BaseMatrix).IsObject() || !Defaulted(opts, Position).IsObject()
       || !Defaulted(opts, Rotation).IsObject() || !Defaulted(opts, Scale).IsObject()
    then Err(Reported(EXPECTED_OBJECT))
    else Ok(WithCallbacks(Required(opts), opts))
  }

  /** The geometry, program and transform slots, the transform options defaulted. */
  function Required(opts: Options): Slots
  {
    map[Geometry := Get(opts, "geometry"), Program := Get(opts, "program"),
        BaseMatrix := Defaulted(opts, BaseMatrix), Position := Defaulted(opts, Position),
        Rotation := Defaulted(opts, Rotation), Scale := Defaulted(opts, Scale)]
  }

  /** The six callback options, in the order the constructor reads them. */
  function WithCallbacks(slots: Slots, opts: Options): Slots
  {
    var withFrame := WithCallback(slots, opts, OnFrame);
    var withGaze := WithCallback(WithCallback(withFrame, opts, OnGazeHoverOver), opts, OnGazeHoverOut);
    var withTouch := WithCallback(WithCallback(withGaze, opts, OnGestureTouchDown), opts, OnGestureTouchUp);
    WithCallback(withTouch, opts, OnGestureTouchCancel)
  }

  /** CallbackDefined: the slot is set and holds neither null nor undefined. */
  predicate CallbackDefined(slots: Slots, s: Slot)
  {
    s in slots && !slots[s].IsNullOrUndefined()
  }

  predicate HasFrameCallback(slots: Slots)
  {
    CallbackDefined(slots, OnFrame)
  }

  predicate HasGazeCallback(slots: Slots)
  {
    CallbackDefined(slots, OnGazeHoverOver) || CallbackDefined(slots, OnGazeHoverOut)
  }

  predicate HasGestureCallback(slots: Slots)
  {
    CallbackDefined(slots, OnGestureTouchDown) || CallbackDefined(slots, OnGestureTouchUp)
      || CallbackDefined(slots, OnGestureTouchCancel)
  }

  // ---------------------------------------------------------------------------
  // What construction promises
  // ---------------------------------------------------------------------------

  /**
   * Construction succeeds exactly when geometry and program are objects and
   * each transform option is absent, null or an object; an absent geometry or
   * program reads as undefined and is rejected.
   */
  lemma ResolveSucceedsExactly(opts: Options)
    ensures Resolve(opts).Ok? <==>
      && Get(opts, "geometry").IsObject() && Get(opts, "program").IsObject()
      && (forall s: Slot :: s.IsTransform() ==>
            Get(opts, s.OptionName()).IsNullOrUndefined() || Get(opts, s.OptionName()).IsObject())
    ensures "geometry" !in opts || "program" !in opts ==> Resolve(opts) == Err(Reported(EXPECTED_OBJECT))
  {
    if Resolve(opts).Ok? {
      forall s: Slot | s.IsTransform()
        ensures Get(opts, s.OptionName()).IsNullOrUndefined() || Get(opts, s.OptionName()).IsObject()
      {
        assert Defaulted(opts, s).IsObject();
      }
    }
  }

  /** One callback option: it sets its own slot when given and touches no other. */
  lemma CallbackSlot(slots: Slots, opts: Options, s: Slot, c: Slot)
    ensures c != s ==> (c in WithCallback(slots, opts, s) <==> c in slots)
    ensures c != s && c in slots ==> WithCallback(slots, opts, s)[c] == slots[c]
    ensures c == s ==> (c in WithCallback(slots, opts, s) <==> c in slots || !Get(opts, c.OptionName()).IsNullOrUndefined())
    ensures c == s && !Get(opts, c.OptionName()).IsNullOrUndefined() ==> WithCallback(slots, opts, s)[c] == Get(opts, c.OptionName())
  {
  }

  /** The six callback options set their own slots when given, and leave every other slot alone. */
  lemma CallbacksSlot(slots: Slots, opts: Options, c: Slot)
    ensures !c.IsCallback() ==> (c in WithCallbacks(slots, opts) <==> c in slots)
    ensures !c.IsCallback() && c in slots ==> WithCallbacks(slots, opts)[c] == slots[c]
    ensures c.IsCallback() ==> (c in WithCallbacks(slots, opts) <==> c in slots || !Get(opts, c.OptionName()).IsNullOrUndefined())
    ensures c.IsCallback() && !Get(opts, c.OptionName()).IsNullOrUndefined() ==> WithCallbacks(slots, opts)[c] == Get(opts, c.OptionName())
  {
    var m1 := WithCallback(slots, opts, OnFrame);
    var m2 := WithCallback(m1, opts, OnGazeHoverOver);
    var m3 := WithCallback(m2, opts, OnGazeHoverOut);
    var m4 := WithCallback(m3, opts, OnGestureTouchDown);
    var m5 := WithCallback(m4, opts, OnGestureTouchUp);
    CallbackSlot(slots, opts, OnFrame, c);
    CallbackSlot(m1, opts, OnGazeHoverOver, c);
    CallbackSlot(m2, opts, OnGazeHoverOut, c);
    CallbackSlot(m3, opts, OnGestureTouchDown, c);
    CallbackSlot(m4, opts, OnGestureTouchUp, c);
    CallbackSlot(m5, opts, OnGestureTouchCancel, c);
  }

  /** The slots of a successful construction: the required slots with the callbacks on top. */
  lemma ResolvedAre(opts: Options)
    requires Resolve(opts).Ok?
    ensures Resolve(opts).value == WithCallbacks(Required(opts), opts)
  {
  }

  /** The required slots hold geometry, program and the defaulted transform options, and no callback. */
  lemma RequiredSlot(opts: Options, c: Slot)
    ensures !c.IsCallback() ==> c in Required(opts)
    ensures c.IsCallback() ==> c !in Required(opts)
    ensures c == Geometry ==> Required(opts)[c] == Get(opts, "geometry")
    ensures c == Program ==> Required(opts)[c] == Get(opts, "program")
    ensures c.IsTransform() ==> Required(opts)[c] == Defaulted(opts, c)
  {
  }

  /**
   * A successful construction stores geometry and program as given and
   * fills every transform slot, from the option when it is set and with the
   * default otherwise.
   */
  lemma ResolvedTransform(opts: Options)
    requires Resolve(opts).Ok?
    ensures Geometry in Resolve(opts).value && Resolve(opts).value[Geometry] == Get(opts, "geometry")
    ensures Program in Resolve(opts).value && Resolve(opts).value[Program] == Get(opts, "program")
    ensures forall s: Slot :: s.IsTransform() ==>
              s in Resolve(opts).value && Resolve(opts).value[s] == Defaulted(opts, s)
  {
    ResolvedAre(opts);
    var required := Required(opts);
    RequiredSlot(opts, Geometry);
    CallbacksSlot(required, opts, Geometry);
    RequiredSlot(opts, Program);
    CallbacksSlot(required, opts, Program);
    forall s: Slot | s.IsTransform()
      ensures s in Resolve(opts).value && Resolve(opts).value[s] == Defaulted(opts, s)
    {
      RequiredSlot(opts, s);
      CallbacksSlot(required, opts, s);
    }
  }

  /**
   * A callback slot of a constructed model is filled exactly when its
   * option is neither absent nor null, and then with the option as given.
   */
  lemma ResolvedCallbacks(opts: Options)
    requires Resolve(opts).Ok?
    ensures forall s: Slot :: s.IsCallback() ==>
              (s in Resolve(opts).value <==> !Get(opts, s.OptionName()).IsNullOrUndefined())
              && (s in Resolve(opts).value ==> Resolve(opts).value[s] == Get(opts, s.OptionName()))
  {
    ResolvedAre(opts);
    var required := Required(opts);
    forall s: Slot | s.IsCallback()
      ensures s in Resolve(opts).value <==> !Get(opts, s.OptionName()).IsNullOrUndefined()
      ensures s in Resolve(opts).value ==> Resolve(opts).value[s] == Get(opts, s.OptionName())
    {
      RequiredSlot(opts, s);
      CallbacksSlot(required, opts, s);
    }
  }

  /**
   * On a constructed model the callback predicates report exactly which
   * callback options were given: a frame callback, one of the two gaze
   * callbacks, one of the three touch callbacks.
   */
  lemma CallbacksAsGiven(opts: Options, slots: Slots)
    requires Resolve(opts) == Ok(slots)
    ensures HasFrameCallback(slots) <==> !Get(opts, OnFrame.OptionName()).IsNullOrUndefined()
    ensures HasGazeCallback(slots) <==>
              !Get(opts, OnGazeHoverOver.OptionName()).IsNullOrUndefined() || !Get(opts, OnGazeHoverOut.OptionName()).IsNullOrUndefined()
    ensures HasGestureCallback(slots) <==>
              || !Get(opts, OnGestureTouchDown.OptionName()).IsNullOrUndefined() || !Get(opts, OnGestureTouchUp.OptionName()).IsNullOrUndefined()
              || !Get(opts, OnGestureTouchCancel.OptionName()).IsNullOrUndefined()
  {
    CallbackAsGiven(opts, slots, OnFrame);
    CallbackAsGiven(opts, slots, OnGazeHoverOver);
    CallbackAsGiven(opts, slots, OnGazeHoverOut);
    CallbackAsGiven(opts, slots, OnGestureTouchDown);
    CallbackAsGiven(opts, slots, OnGestureTouchUp);
    CallbackAsGiven(opts, slots, OnGestureTouchCancel);
  }

  /** One callback slot of a constructed model is defined exactly when its option was given. */
  lemma CallbackAsGiven(opts: Options, slots: Slots, c: Slot)
    requires Resolve(opts) == Ok(slots) && c.IsCallback()
    ensures CallbackDefined(slots, c) <==> !Get(opts, c.OptionName()).IsNullOrUndefined()
  {
    ResolvedAre(opts);
    RequiredSlot(opts, c);
    CallbacksSlot(Required(opts), opts, c);
  }

  // ---------------------------------------------------------------------------
  // The local matrix
  // ---------------------------------------------------------------------------

  /**
   * Cosine and sine of an angle. The rotation matrices are built from them;
   * the model leaves their values open.
   */
  datatype Trig = Trig(cos: real -> real, sin: real -> real)

  /** Row-major product a * b. */
  function Mul(a: Mat4, b: Mat4): Mat4
  {
    seq(4, i requires 0 <= i < 4 => seq(4, j requires 0 <= j < 4 =>
      a[i][0] * b[0][j] + a[i][1] * b[1][j] + a[i][2] * b[2][j] + a[i][3] * b[3][j]))
  }

  function RotationX(t: Trig, angle: real): Mat4
  {
    var c, s := t.cos(angle), t.sin(angle);
    [[1.0, 0.0, 0.0, 0.0], [0.0, c, -s, 0.0], [0.0, s, c, 0.0], [0.0, 0.0, 0.0, 1.0]]
  }

  function RotationY(t: Trig, angle: real): Mat4
  {
    var c, s := t.cos(angle), t.sin(angle);
    [[c, 0.0, s, 0.0], [0.0, 1.0, 0.0, 0.0], [-s, 0.0, c, 0.0], [0.0, 0.0, 0.0, 1.0]]
  }

  function RotationZ(t: Trig, angle: real): Mat4
  {
    var c, s := t.cos(angle), t.sin(angle);
    [[c, -s, 0.0, 0.0], [s, c, 0.0, 0.0], [0.0, 0.0, 1.0, 0.0], [0.0, 0.0, 0.0, 1.0]]
  }

  function Scaling(v: seq<real>): Mat4
    requires |v| == 3
  {
    [[v[0], 0.0, 0.0, 0.0], [0.0, v[1], 0.0, 0.0], [0.0, 0.0, v[2], 0.0], [0.0, 0.0, 0.0, 1.0]]
  }

  /** The matrix with its translation column (rows 0 to 2 of column 3) replaced by `v`. */
  function SetTranslation(m: Mat4, v: seq<real>): (r: Mat4)
    requires |v| == 3
    ensures forall i, j :: 0 <= i < 4 && 0 <= j < 4 ==> r[i][j] == if i < 3 && j == 3 then v[i] else m[i][j]
  {
    m[0 := m[0][3 := v[0]]][1 := m[1][3 := v[1]]][2 := m[2][3 := v[2]]]
  }

  function Translation(m: Mat4): seq<real>
  {
    [m[0][3], m[1][3], m[2][3]]
  }

  predicate IsVector3(v: Value)
  {
    v.Vector? && |v.comps| == 3
  }

  /**
   * The slots ComputeMatrix reads hold what it reads them as: the base
   * matrix a matrix, position, rotation and scale three-component vectors
   * (the source reads the object's private pointer without a type check).
   */
  predicate TransformSlotsTyped(slots: Slots)
  {
    && (BaseMatrix in slots ==> slots[BaseMatrix].Matrix?)
    && (Position in slots ==> IsVector3(slots[Position]))
    && (Rotation in slots ==> IsVector3(slots[Rotation]))
    && (Scale in slots ==> IsVector3(slots[Scale]))
  }

  /** The matrix before the translation is overwritten: base * RotX * RotY * RotZ * Scaling. */
  function Linear(t: Trig, slots: Slots): Mat4
    requires TransformSlotsTyped(slots)
  {
    var base := if BaseMatrix in slots then slots[BaseMatrix].m else Identity();
    var rotated := if Rotation in slots then
      var r := slots[Rotation].comps;
      Mul(base, Mul(Mul(RotationX(t, r[0]), RotationY(t, r[1])), RotationZ(t, r[2])))
    else base;
    if Scale in slots then Mul(rotated, Scaling(slots[Scale].comps)) else rotated
  }

  /** The local matrix ComputeMatrix produces. */
  function Composed(t: Trig, slots: Slots): Mat4
    requires TransformSlotsTyped(slots)
  {
    if Position in slots then SetTranslation(Linear(t, slots), slots[Position].comps) else Linear(t, slots)
  }

  /** The translation of the composed matrix is exactly the position. */
  lemma TranslationIsPosition(t: Trig, slots: Slots)
    requires TransformSlotsTyped(slots) && Position in slots
    ensures Translation(Composed(t, slots)) == slots[Position].comps
  {
    var r := Composed(t, slots);
    assert r[0][3] == slots[Position].comps[0];
  }

  /**
   * The position sets the translation and nothing else: every other entry
   * is that of the matrix composed without a position, so a model pivots
   * about its own origin.
   */
  lemma PositionOnlyTranslates(t: Trig, slots: Slots)
    requires TransformSlotsTyped(slots)
    ensures var without := slots - {Position};
      TransformSlotsTyped(without) &&
      forall i, j :: 0 <= i < 4 && 0 <= j < 4 && !(i < 3 && j == 3) ==> Composed(t, slots)[i][j] == Composed(t, without)[i][j]
  {
    var without := slots - {Position};
    assert Linear(t, slots) == Linear(t, without);
  }

  /**
   * With a zero scale (the default the constructor fills in when no scale
   * is given) the first three columns of the composed matrix are zero,
   * whatever the base matrix and the rotation.
   */
  lemma ZeroScaleCollapses(t: Trig, slots: Slots)
    requires TransformSlotsTyped(slots) && Scale in slots && slots[Scale].comps == ZERO3
    ensures forall i, j :: 0 <= i < 4 && 0 <= j < 3 ==> Composed(t, slots)[i][j] == 0.0
  {
    var lin := Linear(t, slots);
    assert forall i, j :: 0 <= i < 4 && 0 <= j < 3 ==> lin[i][j] == 0.0;
  }

  /** The slots a successful construction fills are read back as what ComputeMatrix expects, when the options are. */
  lemma ResolvedTyped(opts: Options)
    requires Resolve(opts).Ok?
    requires forall s: Slot :: s.IsTransform() && !Get(opts, s.OptionName()).IsNullOrUndefined() ==>
               if s == BaseMatrix then Get(opts, s.OptionName()).Matrix? else IsVector3(Get(opts, s.OptionName()))
    ensures TransformSlotsTyped(Resolve(opts).value)
  {
    ResolvedTransform(opts);
  }

  // ---------------------------------------------------------------------------
  // The model object
  // ---------------------------------------------------------------------------

  class Model {
    const id: int
    var isHovered: bool
    var isTouching: bool
    var computedMatrix: Option<Mat4>
    var slots: Slots

    /** CoreModel(): takes the next id; not hovered, not touched, no matrix computed, every slot empty. */
    constructor (counter: IdCounter)
      requires counter.Valid()
      modifies counter
      ensures counter.Valid() && id == old(counter.next) && counter.next == old(counter.next) + 1
      ensures counter.issued == old(counter.issued) + [id]
      ensures !isHovered && !isTouching && computedMatrix == None && slots == map[]
    {
      var next := counter.Allocate();
      id := next;
      isHovered := false;
      isTouching := false;
      computedMatrix := None;
      slots := map[];
    }

    predicate HasFrame()
      reads this
    {
      HasFrameCallback(slots)
    }

    predicate HasGaze()
      reads this
    {
      HasGazeCallback(slots)
    }

    predicate HasGesture()
      reads this
    {
      HasGestureCallback(slots)
    }

    /** The property getter: the slot's value, or null when the slot is empty. */
    method GetSlot(s: Slot) returns (v: Value)
      ensures s in slots ==> v == slots[s]
      ensures s !in slots ==> v == Null
    {
      if s in slots {
        v := slots[s];
      } else {
        v := Null;
      }
    }

    /**
     * The property setter, as evidently intended: a non-object is rejected
     * and leaves the slot alone; an object replaces the slot's value.
     */
    method SetSlot(s: Slot, v: Value) returns (r: Status)
      modifies this
      ensures !v.IsObject() ==> r == Err(Reported("Unexpected argument (expected ##name)")) && slots == old(slots)
      ensures v.IsObject() ==> r == Ok(()) && slots == old(slots)[s := v]
      ensures isHovered == old(isHovered) && isTouching == old(isTouching) && computedMatrix == old(computedMatrix)
    {
      if !v.IsObject() {
        return Err(Reported("Unexpected argument (expected ##name)"));
      }
      slots := slots[s := v];
      return Ok(());
    }

    /** Composes the local matrix from the slots and caches it. */
    method ComputeMatrix(t: Trig)
      requires TransformSlotsTyped(slots)
      modifies this
      ensures slots == old(slots) && isHovered == old(isHovered) && isTouching == old(isTouching)
      ensures computedMatrix == Some(Composed(t, slots))
    {
      var mtx := Identity();
      if BaseMatrix in slots {
        mtx := slots[BaseMatrix].m;
      }
      if Rotation in slots {
        var rot := slots[Rotation].comps;
        mtx := Mul(mtx, Mul(Mul(RotationX(t, rot[0]), RotationY(t, rot[1])), RotationZ(t, rot[2])));
      }
      if Scale in slots {
        mtx := Mul(mtx, Scaling(slots[Scale].comps));
      }
      if Position in slots {
        mtx := SetTranslation(mtx, slots[Position].comps);
      }
      computedMatrix := Some(mtx);
    }

    /** Fills a required or defaulted slot, or reports that the value is not an object. */
    method TakeObject(s: Slot, v: Value) returns (ok: bool)
      modifies this
      ensures ok == v.IsObject()
      ensures slots == if ok then old(slots)[s := v] else old(slots)
      ensures isHovered == old(isHovered) && isTouching == old(isTouching) && computedMatrix == old(computedMatrix)
    {
      if !v.IsObject() {
        return false;
      }
      slots := slots[s := v];
      return true;
    }

    /** _constructorCallback: an absent or null callback leaves the slot empty; anything else is stored as given. */
    method TakeCallback(opts: Options, s: Slot)
      modifies this
      ensures slots == WithCallback(old(slots), opts, s)
      ensures isHovered == old(isHovered) && isTouching == old(isTouching) && computedMatrix == old(computedMatrix)
    {
      var v := Get(opts, s.OptionName());
      if !v.IsNullOrUndefined() {
        slots := slots[s := v];
      }
    }
  }

  /**
   * CoreModel_constructor: exactly one object argument, whose properties are
   * looked up in `heap`. The model, and so its id, is created before the
   * options are checked: a construction that fails on its options still
   * uses up an id.
   */
  method Construct(args: seq<Value>, heap: Heap, counter: IdCounter) returns (r: Result<Model, Failure>)
    requires counter.Valid()
    modifies counter
    ensures counter.Valid()
    ensures |args| != 1 ==> r == Err(WrongArgumentCount(|args|, 1)) && counter.next == old(counter.next)
    ensures |args| == 1 && !args[0].IsObject() ==>
              r == Err(Reported("Model argument must be an object")) && counter.next == old(counter.next)
    ensures |args| == 1 && args[0].IsObject() ==>
              && counter.next == old(counter.next) + 1 && counter.issued == old(counter.issued) + [old(counter.next)]
              && match Resolve(PropertiesOf(heap, args[0]))
                 case Ok(slots) =>
                   && r.Ok? && fresh(r.value) && r.value.id == old(counter.next) && r.value.slots == slots
                   && !r.value.isHovered && !r.value.isTouching && r.value.computedMatrix == None
                 case Err(e) => r == Err(e)
  {
    if |args| != 1 {
      return Err(WrongArgumentCount(|args|, 1));
    }
    if !args[0].IsObject() {
      return Err(Reported("Model argument must be an object"));
    }
    var opts := PropertiesOf(heap, args[0]);
    var model := new Model(counter);
    var ok := model.TakeObject(Geometry, Get(opts, "geometry"));
    if !ok {
      return Err(Reported(EXPECTED_OBJECT));
    }
    ok := model.TakeObject(Program, Get(opts, "program"));
    if !ok {
      return Err(Reported(EXPECTED_OBJECT));
    }
    ok := model.TakeObject(BaseMatrix, Defaulted(opts, BaseMatrix));
    if !ok {
      return Err(Reported(EXPECTED_OBJECT));
    }
    ok := model.TakeObject(Position, Defaulted(opts, Position));
    if !ok {
      return Err(Reported(EXPECTED_OBJECT));
    }
    ok := model.TakeObject(Rotation, Defaulted(opts, Rotation));
    if !ok {
      return Err(Reported(EXPECTED_OBJECT));
    }
    ok := model.TakeObject(Scale, Defaulted(opts, Scale));
    if !ok {
      return Err(Reported(EXPECTED_OBJECT));
    }
    model.TakeCallback(opts, OnFrame);
    model.TakeCallback(opts, OnGazeHoverOver);
    model.TakeCallback(opts, OnGazeHoverOut);
    model.TakeCallback(opts, OnGestureTouchDown);
    model.TakeCallback(opts, OnGestureTouchUp);
    model.TakeCallback(opts, OnGestureTouchCancel);
    return Ok(model);
  }

  /**
   * The property setter as written: it stores `*vp`, the first slot of the
   * native call's value vector, which holds the setter function itself
   * (`callee`) rather than the assigned `newValue`. Returns what the slot holds
   * afterwards, or None when the assignment is rejected.
   */
  function StoredAsWritten(callee: Value, newValue: Value): (r: Option<Value>)
    ensures r.Some? <==> newValue.IsObject()
  {
    if !newValue.IsObject() then None else Some(callee)
  }

  /**
   * Assigning a position vector through the setter as written leaves the
   * setter function in the slot, not the vector.
   */
  lemma SetterAsWrittenDropsValue()
    ensures StoredAsWritten(Function(0), Vector([1.0, 2.0, 3.0])) != Some(Vector([1.0, 2.0, 3.0]))
  {
  }
}
