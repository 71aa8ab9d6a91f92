# deform field tree, in Dafny

A model of `deform/form.py` from deform, the HTML form library built on
colander schemas. A `Field` mirrors one schema node: it snapshots the node's
name, title, description and `required` flag, and builds one child field per
schema child, in the same order. A field finds a direct child by name, clones
itself into an independent tree, binds its widget lazily and only once, reads
its schema default lazily and only once, and runs the two-phase protocol:

- `render` hands the field to its widget;
- `validate` has the widget turn the parsed submission into a cstruct, then
  has the schema turn that into a value or reject it.

A `Form` is a root field with an action, an HTTP method, a button bar and a
fixed form widget. A `Button` defaults its title to the capitalized name and
its value to the name.

Files:

- `wrappers.dfy`: `Option` and `Result`.
- `collaborators.dfy`: the outside world as values. This covers colander schema
  nodes and types, widget instances (objects, so that "the same widget" means
  the same object), the renderer, value structures and colander's `Invalid`.
- `buttons.dfy`: `Button`, and ASCII `str.capitalize` with its
  characterisation.
- `field.dfy`: the `Field` class (a `Form` is a `Field` whose `form`
  attributes are present), button normalisation, lookup, clone, the memoised
  `widget` and `default`, and `render`/`validate`.

The tree is a class with a ghost footprint `Repr` and a ghost `State`. `Repr`
holds the field objects of the subtree. `State` is the value of the whole
subtree: every attribute of every field. `Valid()` ties `State` to the fields
and keeps the children's footprints disjoint. It also keeps one child per
schema child, each built from the matching schema child. Ghost counters record
how often a field's widget maker ran, how often its default was read into the
memo slot, and how often a widget's error hook ran on it. `Valid()` bounds the
first two by one.

The code outside `form.py` enters through an `Env` value of functions. These
are `peppercorn.parse`, a widget's `serialize` and `deserialize`, and
`schema.deserialize`. The model assumes nothing about the values they return,
but as Dafny functions they cannot change the tree, and the widget functions
see the field only as a reference: they cannot read its mutable state.

## Model

| member | source | states |
|---|---|---|
| `Forms.Field.constructor` | deform/form.py:33-42 | the new tree is valid and wholly fresh; it mirrors the schema: name, title, description and required are copied at every node, and each node has as many children as its schema node, in the same order, each built from the matching schema child; every node has the given renderer, or the default one when none is given; no node has a widget, default, error or form attributes yet |
| `Forms.BuiltTreeDetermined` | deform/form.py:33-42 | building is deterministic: two trees that mirror the same schema and are freshly built with the same renderer are equal |
| `Forms.Field.AddChildren` | deform/form.py:40-42 | the children become one freshly built child per schema child, in order, with disjoint footprints; the field's own attributes stay as they were |
| `Forms.Field.BuildChildren` | deform/form.py:41-42 | the loop builds one new Field per schema child, in order, each mirroring its schema child with the same renderer, with fresh and pairwise disjoint footprints |
| `Forms.FirstNamed` | deform/form.py:47-50 | the linear search returns the index of the first field with that name; it returns none exactly when no field has that name |
| `Forms.Field.GetItem` | deform/form.py:44-50 | `field[name]` succeeds if and only if a direct child has that name, and then returns the first such direct child; otherwise it fails with `KeyError(name)` |
| `Forms.LookupDistinct` | deform/form.py:47-49 | when the children's names are distinct, looking up a child's name finds exactly that child |
| `Forms.LookupFollowsSchema` | deform/form.py:36-50 | in a tree that mirrors its schema, lookup succeeds exactly for the names of the schema node's direct children; grandchildren are never found |
| `Forms.Field.CopyOf` | deform/form.py:55-56 | the new field holds every attribute of the source: schema, renderer, scalars, form attributes, widget and default memo slots (resolved or not), and error; it has no children yet |
| `Forms.Field.Clone` | deform/form.py:52-58 | the clone is valid, all of its field objects are fresh, and its value equals the original's at every node; this includes an already bound widget (the same object) and an unresolved one (still unresolved); the original is not modified |
| `Forms.Field.CloneChildren` | deform/form.py:57 | one recursive clone per child, in order, each with the child's value, with fresh and pairwise disjoint footprints |
| `Forms.RebindClone` | deform/form.py:52-58 | the clone is independent: binding a widget on it leaves the original's value unchanged, and the clone differs from the original only in that widget |
| `Forms.Field.ReadWidget` | deform/form.py:60-71 | a bound widget is returned as is and the maker does not run; otherwise one run of the maker creates a fresh instance of the type's `default_widget_maker` class, or of TextInputWidget when the type has none, and binds it; the children and all other attributes stay as they were |
| `Forms.Field.AssignWidget` | deform/form.py:62-67 | assigning a widget binds it without running the maker; the children and all other attributes stay as they were |
| `Forms.ReadWidgetTwice` | deform/form.py:62-67 | two reads return the same object; the maker runs only if nothing was bound before, and then only once |
| `Forms.AssignThenRead` | deform/form.py:66-67 | after an assignment, reading returns the assigned widget and the maker never runs |
| `Forms.Field.ReadDefault` | deform/form.py:73-76 | a default already in the memo slot (read or assigned before) is returned as is; otherwise the schema's `sdefault` is stored and returned, so it is computed at most once; the children and all other attributes stay as they were |
| `Forms.Field.AssignDefault` | deform/form.py:73-76 | assigning a default fills the memo slot without reading the schema default; the children and all other attributes stay as they were |
| `Forms.AssignThenReadDefault` | deform/form.py:73-76 | after an assignment, reading `default` returns the assigned value and the schema default is never read into the slot |
| `Forms.Field.Render` | deform/form.py:78-79 | the output is the bound widget's serialization of this field and the given cstruct (none by default); the only state change is the widget getting bound; the children stay the same objects |
| `Forms.Field.HandleError` | deform/form.py:152 | the error hook records the schema error as this field's `error`, once; the children and all other attributes stay as they were |
| `Forms.Field.Validate` | deform/form.py:147-153 | the cstruct is the bound widget's deserialization of the parsed fields; if the schema accepts it, the result is the schema's value and no error hook runs; if the schema raises `e`, the error hook runs exactly once, and the result is a failure carrying this field, that same cstruct and `e`; in both cases nothing else changes, and the children stay the same objects |
| `Forms.NormaliseButtons` | deform/form.py:185-189 | the buttons keep their length and order; each string `s` becomes `Button(s)` and each Button is kept as is |
| `Forms.Field.Form` | deform/form.py:182-193 | the form mirrors the schema like a field, and its children are freshly built; action, method and buttons are as given, after normalisation, with defaults `.`, `POST` and none; the widget is a fresh FormWidget, bound from the start, so the widget maker never runs for a form |
| `Buttons.Capitalize` | deform/form.py:223 | `name.capitalize()` equals the name up to letter case; its first character is not lower-case and no later character is upper-case |
| `Buttons.CapitalizeUnique` | deform/form.py:223 | those two properties determine `capitalize`: any string that has both equals `Capitalize(name)` |
| `Buttons.MakeButton` | deform/form.py:221-228 | the name is kept; a title given as None becomes the capitalized name, and an explicit title is kept; a value given as None becomes the name, and an explicit value is kept |
| `Buttons.DefaultButton` | deform/form.py:221-228 | `Button()` has name `submit`, title `Submit` and value `submit` |

## Left out

- `peppercorn.parse`, the widgets' `serialize` and `deserialize`, and colander's `schema.deserialize` are outside `form.py`. They are arbitrary functions held in `Env`, and only their inputs and outputs appear.
- Exceptions other than colander's `Invalid` are not modelled, including one raised by a widget's `deserialize`. In the source they propagate unchanged; the `Env` functions here are total.
- Forms.Field.HandleError: a widget's `handle_error` can also set `error` on descendant fields. The model records only the effect on the field being validated, that field's `error`, and counts the call. What the hook does to descendants lives in the widget code, which is not part of this model.
- Widgets are reduced to objects with a kind (TextInputWidget, FormWidget or another class name). Their markup, templates and the renderer's work are not modelled. The renderer is an opaque value.
- `decorator.reify` is not part of this model. Only its memoisation is modelled: a memo slot per attribute (`widget`, `default`), filled by the first read or by an assignment (Forms.Field.AssignWidget, Forms.Field.AssignDefault). Deleting a reified attribute to recompute it is not modelled.
- `Form` is a subclass in the source. Here it is a `Field` whose `form` attributes are present, and a clone keeps them, as `self.__class__` keeps the class. The clone's intermediate `self.__class__(self.schema)` builds a throwaway subtree and, for a form, a throwaway FormWidget. Nothing can observe these, so they are not modelled.
- Forms.Field.AddChildren builds the child list in a local (Forms.Field.BuildChildren) and stores it once it is complete. The source appends to `self.children` in place. Nothing can observe the list while `__init__` runs.
- Forms.Field.Form binds the FormWidget before the children are built; the source binds it after. Nothing can observe the order.
- Forms.Field.Render and Forms.Field.Validate: the widget's `serialize` and `deserialize` are modelled as functions without effects that do not see the field's mutable state (its `error`, children or memo slots). In the source they receive the live field, may read or change it, and a `serialize` given no cstruct typically reads `field.default`, itself a memoised read. The contracts' "nothing else changes" rests on this abstraction.
- Forms.Field.Clone: the value model hides sharing. `__dict__.update` makes the clone share the same `buttons` list, `error` object, `default` object and widget with the original, so a mutation of one of those objects through one tree shows in the other. The model's attributes are values (the widget is the one shared object), so only reassignment of an attribute is modelled, and that stays local to one tree.
- `renderer or template.default_renderer` also replaces a renderer that Python considers false. The model replaces only a missing renderer.
- Buttons.Capitalize is the byte-string `capitalize` under the C locale: only ASCII letters change case. Unicode case mapping is not modelled.
- Callers may reassign `name`, `title`, `description`, `required`, `schema` and the form attributes in Python. Nothing in `form.py` does, so the model makes them constant.
- Thread safety is out of scope. The model states only the sequential independence of a cloned tree.
- The `Button` docstring (form.py:212-214) only says the default title is the capitalization of the name. `str.capitalize` also lower-cases the rest of the name (`'goBack'` becomes `'Goback'`), and the model follows the code.
