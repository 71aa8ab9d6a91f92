/** deform.form.Field and deform.form.Form: a tree of fields mirroring a
    schema tree, with a lazily bound widget, a lazily read default, lookup of
    children by name, structural cloning and the render/validate protocol. */
module Forms {
  import opened Wrappers
  import opened Collaborators
  import opened Buttons

  /** The extra attributes of a Form: the form tag's action and method and
      the button bar. A field without them is a plain Field. */
  datatype FormAttrs = FormAttrs(action: string, httpMethod: string, buttons: seq<Button>)

  const DefaultAction := "."
  const DefaultMethod := "POST"

  /** A `buttons` entry as passed to Form: a string or a Button. */
  datatype ButtonSpec = Named(name: string) | Given(button: Button)

  /** The failure `validate` raises: the field, the rejected cstruct and
      the schema's error. */
  datatype ValidationFailure = ValidationFailure(field: Field, cstruct: Data, error: Invalid)

  /** The failure `field[name]` raises. */
  datatype KeyError = KeyError(name: string)

  /** Code outside this model that the protocol calls: peppercorn.parse,
      a widget's serialize and deserialize, and schema.deserialize. */
  datatype Env = Env(
    parse: seq<(string, Data)> -> Data,
    widgetSerialize: (Widget, Field, Option<Data>) -> string,
    widgetDeserialize: (Widget, Field, Data) -> Data,
    schemaDeserialize: (SchemaNode, Data) -> SchemaOutcome)

  /** The value of a field tree at one moment: every attribute of every field. */
  datatype FieldState = FieldState(
    schema: SchemaNode,
    renderer: Renderer,
    name: string,
    title: string,
    description: string,
    required: bool,
    form: Option<FormAttrs>,
    widget: Option<Widget>,
    defaultValue: Option<Data>,
    error: Option<Invalid>,
    children: seq<FieldState>)

  /** `st` snapshots schema node `s` and its children, in order, recursively. */
  ghost predicate Mirrors(st: FieldState, s: SchemaNode)
  {
    && st.schema == s
    && st.name == s.name
    && st.title == s.title
    && st.description == s.description
    && st.required == s.required
    && |st.children| == |s.children|
    && forall i :: 0 <= i < |st.children| ==> Mirrors(st.children[i], s.children[i])
  }

  /** As freshly built: renderer `r`, nothing resolved, no error, no form. */
  ghost predicate Pristine(st: FieldState, r: Renderer)
  {
    && st.renderer == r
    && st.form.None?
    && st.widget.None?
    && st.defaultValue.None?
    && st.error.None?
    && forall i :: 0 <= i < |st.children| ==> Pristine(st.children[i], r)
  }

  /** Building from a schema is deterministic: two trees that mirror the same
      schema and are pristine with the same renderer are the same tree. */
  lemma {:induction false} BuiltTreeDetermined(a: FieldState, b: FieldState, s: SchemaNode, r: Renderer)
    requires Mirrors(a, s) && Pristine(a, r)
    requires Mirrors(b, s) && Pristine(b, r)
    ensures a == b
  {
    forall i | 0 <= i < |a.children|
      ensures a.children[i] == b.children[i]
    {
      BuiltTreeDetermined(a.children[i], b.children[i], s.children[i], r);
    }
  }

  /** The index of the first field in `fs` named `name`, if any. */
  function FirstNamed(fs: seq<Field>, name: string): (r: Option<nat>)
    ensures r.Some? ==> r.value < |fs| && fs[r.value].name == name
    ensures r.Some? ==> forall j :: 0 <= j < r.value ==> fs[j].name != name
    ensures r.None? ==> forall j :: 0 <= j < |fs| ==> fs[j].name != name
  {
    if fs == [] then None
    else if fs[0].name == name then Some(0)
    else match FirstNamed(fs[1..], name)
      case None => None
      case Some(j) => Some(j + 1)
  }

  /** With pairwise distinct names, looking up a field's name finds that field. */
  lemma LookupDistinct(fs: seq<Field>, k: nat)
    requires k < |fs|
    requires forall i, j :: 0 <= i < j < |fs| ==> fs[i].name != fs[j].name
    ensures FirstNamed(fs, fs[k].name) == Some(k)
  {
  }

  /** Lookup in a field built from a schema succeeds exactly for the names
      of the schema node's direct children. */
  lemma LookupFollowsSchema(f: Field, name: string)
    requires f.Valid() && Mirrors(f.State, f.schema)
    ensures f.GetItem(name).Success? <==>
              exists i :: 0 <= i < |f.schema.children| && f.schema.children[i].name == name
  {
    forall i | 0 <= i < |f.children|
      ensures f.children[i].name == f.schema.children[i].name
    {
      assert f.children[i].Valid() && f.children[i].State == f.State.children[i];
      assert Mirrors(f.State.children[i], f.schema.children[i]);
    }
  }

  /** Cloning, then binding a widget on the clone: the original tree keeps
      its value and the clone's differs only in that widget. */
  method RebindClone(f: Field, w: Widget) returns (c: Field)
    requires f.Valid()
    ensures c.Valid() && fresh(c.Repr) && c.Repr !! f.Repr
    ensures f.State == old(f.State)
    ensures c.State == f.State.(widget := Some(w))
  {
    c := f.Clone();
    c.AssignWidget(w);
  }

  /** Two reads of `widget`: the same object both times, and the maker has
      run once at most, and only if nothing was bound before. */
  method ReadWidgetTwice(f: Field) returns (first: Widget, second: Widget)
    requires f.Valid()
    modifies f
    ensures f.Valid() && first == second && f.widgetSlot == Some(first)
    ensures old(f.widgetSlot).Some? ==> first == old(f.widgetSlot.value) && f.widgetMakes == old(f.widgetMakes)
    ensures old(f.widgetSlot).None? ==> fresh(first) && f.widgetMakes == old(f.widgetMakes) + 1
  {
    first := f.ReadWidget();
    second := f.ReadWidget();
  }

  /** A widget assigned before the first read is what the read returns; the
      maker never runs. */
  method AssignThenRead(f: Field, w: Widget) returns (got: Widget)
    requires f.Valid()
    modifies f
    ensures f.Valid() && got == w && f.widgetMakes == old(f.widgetMakes)
  {
    f.AssignWidget(w);
    got := f.ReadWidget();
  }

  /** A default assigned before the first read is what the read returns;
      the schema default is never read into the slot. */
  method AssignThenReadDefault(f: Field, d: Data) returns (got: Data)
    requires f.Valid()
    modifies f
    ensures f.Valid() && got == d && f.defaultMakes == old(f.defaultMakes)
  {
    f.AssignDefault(d);
    got := f.ReadDefault();
  }

  /** One `buttons` entry as Form.__init__ stores it: a string `s` becomes
      `Button(s)`, a Button is kept. */
  function ButtonOf(spec: ButtonSpec): Button
  {
    match spec
    case Named(s) => MakeButton(s)
    case Given(b) => b
  }

  /** Form.__init__'s loop over `buttons`: every entry converted, order and
      length preserved. */
  method NormaliseButtons(specs: seq<ButtonSpec>) returns (bs: seq<Button>)
    ensures |bs| == |specs|
    ensures forall i :: 0 <= i < |specs| ==> bs[i] == ButtonOf(specs[i])
  {
    bs := [];
    for k := 0 to |specs|
      invariant |bs| == k
      invariant forall i :: 0 <= i < k ==> bs[i] == ButtonOf(specs[i])
    {
      var b := specs[k];
      if b.Named? {
        bs := bs + [MakeButton(b.name)];
      } else {
        bs := bs + [b.button];
      }
    }
  }

  /** `c` is a well-formed field tree freshly built from `s` with renderer `r`. */
  ghost predicate Built(c: Field, s: SchemaNode, r: Renderer)
    reads c, c.Repr
  {
    c.Valid() && c.schema == s && Mirrors(c.State, s) && Pristine(c.State, r)
  }

  /** `c` is a well-formed field tree for schema `s` whose value is `st`. */
  ghost predicate Holds(c: Field, s: SchemaNode, st: FieldState)
    reads c, c.Repr
  {
    c.Valid() && c.schema == s && c.State == st
  }

  class Field {
    const schema: SchemaNode
    const renderer: Renderer
    const name: string
    const title: string
    const description: string
    const required: bool
    /** Some for a Form, None for a plain Field. */
    const form: Option<FormAttrs>
    var children: seq<Field>
    /** The memo slot of the lazily computed `widget`. */
    var widgetSlot: Option<Widget>
    /** The memo slot of the lazily computed `default`. */
    var defaultSlot: Option<Data>
    var error: Option<Invalid>

    /** The value of the tree rooted here. */
    ghost var State: FieldState
    ghost var Repr: set<object>
    /** How often this field ran its widget maker. */
    ghost var widgetMakes: nat
    /** How often this field read its schema default into the memo slot. */
    ghost var defaultMakes: nat
    /** How often a widget's error hook ran on this field. */
    ghost var errorHooks: nat

    /** The memo slots: each is filled by at most one computation. */
    ghost predicate MemoValid()
      reads this
    {
      && widgetMakes <= 1
      && (widgetSlot.None? ==> widgetMakes == 0)
      && defaultMakes <= 1
      && (defaultSlot.None? ==> defaultMakes == 0)
    }

    /** One child per schema child, in order; the children's footprints are
        disjoint, so no field object is shared between two places; State
        is the value of the whole tree. */
    ghost predicate Valid()
      reads this, Repr
      decreases Repr
    {
      && this in Repr
      && MemoValid()
      && State == FieldState(schema, renderer, name, title, description, required, form,
                             widgetSlot, defaultSlot, error, State.children)
      && |children| == |schema.children| == |State.children|
      && (forall i :: 0 <= i < |children| ==>
            && children[i] in Repr
            && children[i].Repr <= Repr
            && this !in children[i].Repr
            && children[i].schema == schema.children[i]
            && children[i].State == State.children[i]
            && children[i].Valid())
      && (forall i, j :: 0 <= i < j < |children| ==> children[i].Repr !! children[j].Repr)
    }

    /** Field(schema, renderer=None). */
    constructor (schema: SchemaNode, renderer: Option<Renderer> := None)
      ensures Valid() && fresh(Repr)
      ensures Mirrors(State, schema)
      ensures Pristine(State, ResolveRenderer(renderer))
      ensures widgetMakes == 0 && defaultMakes == 0 && errorHooks == 0
      decreases schema, 2
    {
      this.schema := schema;
      this.renderer := ResolveRenderer(renderer);
      name := schema.name;
      title := schema.title;
      description := schema.description;
      required := schema.required;
      form := None;
      children := [];
      widgetSlot := None;
      defaultSlot := None;
      error := None;
      State := FieldState(schema, ResolveRenderer(renderer), schema.name, schema.title,
                          schema.description, schema.required, None, None, None, None, []);
      Repr := {this};
      widgetMakes, defaultMakes, errorHooks := 0, 0, 0;
      new;
      AddChildren(renderer);
    }

    /** Form(schema, renderer=None, action='.', method='POST', buttons=()). */
    constructor Form(schema: SchemaNode, renderer: Option<Renderer> := None,
                     action: string := DefaultAction, httpMethod: string := DefaultMethod,
                     buttons: seq<ButtonSpec> := [])
      ensures Valid() && fresh(Repr)
      ensures Mirrors(State, schema)
      ensures State.renderer == ResolveRenderer(renderer)
      ensures forall i :: 0 <= i < |State.children| ==> Pristine(State.children[i], ResolveRenderer(renderer))
      ensures State.defaultValue.None? && State.error.None?
      ensures form.Some? && form.value.action == action && form.value.httpMethod == httpMethod
      ensures |form.value.buttons| == |buttons|
      ensures forall i :: 0 <= i < |buttons| ==> form.value.buttons[i] == ButtonOf(buttons[i])
      ensures widgetSlot.Some? && fresh(widgetSlot.value) && widgetSlot.value.kind == FormWidget
      ensures widgetMakes == 0 && defaultMakes == 0 && errorHooks == 0
    {
      this.schema := schema;
      this.renderer := ResolveRenderer(renderer);
      name := schema.name;
      title := schema.title;
      description := schema.description;
      required := schema.required;
      var bs := NormaliseButtons(buttons);
      form := Some(FormAttrs(action, httpMethod, bs));
      children := [];
      // the forced FormWidget; whether it is bound before or after the
      // children are built is not observable
      var w := new Widget(FormWidget);
      widgetSlot := Some(w);
      defaultSlot := None;
      error := None;
      State := FieldState(schema, ResolveRenderer(renderer), schema.name, schema.title,
                          schema.description, schema.required, Some(FormAttrs(action, httpMethod, bs)),
                          Some(w), None, None, []);
      Repr := {this};
      widgetMakes, defaultMakes, errorHooks := 0, 0, 0;
      new;
      AddChildren(renderer);
    }

    /** The attributes `clone` copies from `src` (its `__dict__`), with the
        children still to be cloned. */
    constructor CopyOf(src: Field)
      ensures schema == src.schema && renderer == src.renderer && name == src.name
      ensures title == src.title && description == src.description && required == src.required
      ensures form == src.form && widgetSlot == src.widgetSlot && defaultSlot == src.defaultSlot
      ensures error == src.error && State == src.State.(children := [])
      ensures children == [] && Repr == {this}
      ensures widgetMakes == 0 && defaultMakes == 0 && errorHooks == 0
    {
      schema := src.schema;
      renderer := src.renderer;
      name := src.name;
      title := src.title;
      description := src.description;
      required := src.required;
      form := src.form;
      children := [];
      widgetSlot := src.widgetSlot;
      defaultSlot := src.defaultSlot;
      error := src.error;
      State := src.State.(children := []);
      Repr := {this};
      widgetMakes, defaultMakes, errorHooks := 0, 0, 0;
    }

    /** Field.__init__'s loop: one child Field per schema child, in order,
        each built with the same renderer argument. */
    method AddChildren(rendererArg: Option<Renderer>)
      requires children == [] && Repr == {this} && MemoValid()
      requires renderer == ResolveRenderer(rendererArg)
      requires State == FieldState(schema, renderer, name, title, description, required, form,
                                   widgetSlot, defaultSlot, error, [])
      modifies this
      ensures Valid() && fresh(Repr - {this})
      ensures State == old(State).(children := State.children)
      ensures forall i :: 0 <= i < |State.children| ==>
                Mirrors(State.children[i], schema.children[i]) && Pristine(State.children[i], renderer)
      ensures widgetSlot == old(widgetSlot) && defaultSlot == old(defaultSlot) && error == old(error)
      ensures widgetMakes == old(widgetMakes) && defaultMakes == old(defaultMakes)
      ensures errorHooks == old(errorHooks)
      decreases schema, 1
    {
      // the list grows in a local and is stored once complete: nothing can
      // observe `self.children` while `__init__` runs
      var kids, states, repr := BuildChildren(rendererArg);
      children, State, Repr := kids, State.(children := states), Repr + repr;
    }

    /** The children `__init__` builds: a fresh Field per schema child, in
        order, each with the renderer argument, with disjoint footprints. */
    method BuildChildren(rendererArg: Option<Renderer>)
        returns (kids: seq<Field>, ghost states: seq<FieldState>, ghost repr: set<object>)
      requires renderer == ResolveRenderer(rendererArg)
      ensures |kids| == |schema.children| == |states| && fresh(repr)
      ensures forall i :: 0 <= i < |kids| ==> kids[i].Repr <= repr && kids[i].State == states[i]
      ensures forall i :: 0 <= i < |kids| ==> Built(kids[i], schema.children[i], renderer)
      ensures forall i, j :: 0 <= i < j < |kids| ==> kids[i].Repr !! kids[j].Repr
      decreases schema, 0
    {
      kids, states, repr := [], [], {};
      for k := 0 to |schema.children|
        invariant |kids| == k == |states| && fresh(repr)
        invariant forall i :: 0 <= i < k ==> kids[i].Repr <= repr && kids[i].State == states[i]
        invariant forall i :: 0 <= i < k ==> Built(kids[i], schema.children[i], renderer)
        invariant forall i, j :: 0 <= i < j < k ==> kids[i].Repr !! kids[j].Repr
      {
        var c := new Field(schema.children[k], rendererArg);
        kids := kids + [c];
        states := states + [c.State];
        repr := repr + c.Repr;
      }
    }

    /** `field[name]`: the first direct child named `name`, else KeyError. */
    function GetItem(name: string): (r: Result<Field, KeyError>)
      reads this
      ensures r.Success? <==> exists i :: 0 <= i < |children| && children[i].name == name
      ensures r.Success? ==> exists i :: 0 <= i < |children| && children[i] == r.value &&
                               r.value.name == name &&
                               forall j :: 0 <= j < i ==> children[j].name != name
      ensures r.Failure? ==> r.error == KeyError(name)
    {
      match FirstNamed(children, name)
      case Some(i) => Success(children[i])
      case None => Failure(KeyError(name))
    }

    /** `clone()`: a new tree with the same attributes at every node (the
        schema, the renderer, a resolved widget or default, the error, the
        form attributes) whose field objects are all new. */
    method Clone() returns (c: Field)
      requires Valid()
      ensures c.Valid() && fresh(c.Repr)
      ensures c.State == State
      decreases Repr, 1
    {
      c := new Field.CopyOf(this);
      var clones, repr := CloneChildren();
      c.children := clones;
      c.Repr := c.Repr + repr;
      c.State := c.State.(children := State.children);
    }

    /** `[field.clone() for field in self.children]`: fresh clones with
        disjoint footprints, one per child, in order. */
    method CloneChildren() returns (clones: seq<Field>, ghost repr: set<object>)
      requires Valid()
      ensures fresh(repr) && |clones| == |children|
      ensures forall i :: 0 <= i < |clones| ==> clones[i] in repr && clones[i].Repr <= repr
      ensures forall i :: 0 <= i < |clones| ==> Holds(clones[i], schema.children[i], State.children[i])
      ensures forall i, j :: 0 <= i < j < |clones| ==> clones[i].Repr !! clones[j].Repr
      decreases Repr, 0
    {
      clones, repr := [], {};
      for k := 0 to |children|
        invariant |clones| == k && fresh(repr)
        invariant forall i :: 0 <= i < k ==> clones[i] in repr && clones[i].Repr <= repr
        invariant forall i :: 0 <= i < k ==> Holds(clones[i], schema.children[i], State.children[i])
        invariant forall i, j :: 0 <= i < j < k ==> clones[i].Repr !! clones[j].Repr
      {
        var d := children[k].Clone();
        clones := clones + [d];
        repr := repr + d.Repr;
      }
    }

    /** What a read of `widget` leaves behind: a bound widget; the one bound
        before, if any, and otherwise a new instance of the type's default
        widget class, made by the only run of the maker. */
    twostate predicate ResolvedWidget()
      reads this
    {
      && widgetSlot.Some?
      && (old(widgetSlot).Some? ==> widgetSlot == old(widgetSlot) && widgetMakes == old(widgetMakes))
      && (old(widgetSlot).None? ==>
            && fresh(widgetSlot.value)
            && widgetSlot.value.kind == DefaultWidgetKind(schema.typ)
            && widgetMakes == old(widgetMakes) + 1)
    }

    /** Reading `field.widget` (a reified attribute). */
    method ReadWidget() returns (w: Widget)
      requires Valid()
      modifies this
      ensures Valid() && Repr == old(Repr) && ResolvedWidget() && widgetSlot == Some(w)
      ensures children == old(children)
      ensures State == old(State).(widget := Some(w))
      ensures defaultMakes == old(defaultMakes) && errorHooks == old(errorHooks)
    {
      if widgetSlot.None? {
        w := new Widget(DefaultWidgetKind(schema.typ));
        widgetSlot := Some(w);
        widgetMakes := widgetMakes + 1;
        State := State.(widget := widgetSlot);
      } else {
        w := widgetSlot.value;
      }
    }

    /** `field.widget = w`: an assignment fills the memo slot, so a maker
        that has not run yet never runs. */
    method AssignWidget(w: Widget)
      requires Valid()
      modifies this
      ensures Valid() && Repr == old(Repr) && widgetSlot == Some(w)
      ensures children == old(children)
      ensures State == old(State).(widget := Some(w))
      ensures widgetMakes == old(widgetMakes) && defaultMakes == old(defaultMakes)
      ensures errorHooks == old(errorHooks)
    {
      widgetSlot := Some(w);
      State := State.(widget := widgetSlot);
    }

    /** Reading `field.default` (a reified attribute): the value already
        in the memo slot, else the schema's serialized default, stored on
        this first read. */
    method ReadDefault() returns (d: Data)
      requires Valid()
      modifies this
      ensures Valid() && Repr == old(Repr) && defaultSlot == Some(d)
      ensures old(defaultSlot).Some? ==> d == old(defaultSlot).value
      ensures old(defaultSlot).None? ==> d == schema.sdefault
      ensures children == old(children)
      ensures State == old(State).(defaultValue := Some(d))
      ensures defaultMakes == if old(defaultSlot).Some? then old(defaultMakes) else old(defaultMakes) + 1
      ensures widgetMakes == old(widgetMakes) && errorHooks == old(errorHooks)
    {
      if defaultSlot.None? {
        defaultSlot := Some(schema.sdefault);
        defaultMakes := defaultMakes + 1;
        State := State.(defaultValue := defaultSlot);
      }
      d := defaultSlot.value;
    }

    /** `field.default = d`: an assignment fills the memo slot, so the schema
        default is never read into it. */
    method AssignDefault(d: Data)
      requires Valid()
      modifies this
      ensures Valid() && Repr == old(Repr) && defaultSlot == Some(d)
      ensures children == old(children)
      ensures State == old(State).(defaultValue := Some(d))
      ensures widgetMakes == old(widgetMakes) && defaultMakes == old(defaultMakes)
      ensures errorHooks == old(errorHooks)
    {
      defaultSlot := Some(d);
      State := State.(defaultValue := defaultSlot);
    }

    /** The effect on this field of the widget's `handle_error(field, e)`:
        the error is recorded as the field's `error`. */
    method HandleError(e: Invalid)
      requires Valid()
      modifies this
      ensures Valid() && Repr == old(Repr) && error == Some(e)
      ensures children == old(children)
      ensures State == old(State).(error := Some(e))
      ensures errorHooks == old(errorHooks) + 1
      ensures widgetMakes == old(widgetMakes) && defaultMakes == old(defaultMakes)
    {
      error := Some(e);
      errorHooks := errorHooks + 1;
      State := State.(error := error);
    }

    /** `render(cstruct=None)`: the bound widget's serialization of this
        field; only the widget may get bound on the way. */
    method Render(env: Env, cstruct: Option<Data> := None) returns (out: string)
      requires Valid()
      modifies this
      ensures Valid() && Repr == old(Repr) && ResolvedWidget()
      ensures out == env.widgetSerialize(widgetSlot.value, this, cstruct)
      ensures children == old(children)
      ensures State == old(State).(widget := widgetSlot)
      ensures defaultMakes == old(defaultMakes) && errorHooks == old(errorHooks)
    {
      var w := ReadWidget();
      out := env.widgetSerialize(w, this, cstruct);
    }

    /** `validate(fields)`: parse, let the widget deserialize, let the
        schema deserialize. Exactly one outcome: the schema's value, or,
        after the error hook ran once, a ValidationFailure carrying this
        field, the cstruct and the schema's error. */
    method Validate(fields: seq<(string, Data)>, env: Env) returns (r: Result<Data, ValidationFailure>)
      requires Valid()
      modifies this
      ensures Valid() && Repr == old(Repr) && ResolvedWidget() && defaultMakes == old(defaultMakes)
      ensures children == old(children)
      ensures var cstruct := env.widgetDeserialize(widgetSlot.value, this, env.parse(fields));
              match env.schemaDeserialize(schema, cstruct)
              case Deserialized(v) =>
                && r == Success(v)
                && State == old(State).(widget := widgetSlot)
                && errorHooks == old(errorHooks)
              case Raised(e) =>
                && r == Failure(ValidationFailure(this, cstruct, e))
                && State == old(State).(widget := widgetSlot, error := Some(e))
                && errorHooks == old(errorHooks) + 1
    {
      var pstruct := env.parse(fields);
      var w := ReadWidget();
      var cstruct := env.widgetDeserialize(w, this, pstruct);
      match env.schemaDeserialize(schema, cstruct)
      case Deserialized(v) =>
        r := Success(v);
      case Raised(e) =>
        HandleError(e);
        r := Failure(ValidationFailure(this, cstruct, e));
    }
  }
}
