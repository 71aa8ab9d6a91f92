/** The collaborators of the field tree that live outside deform/form.py:
    colander schema nodes and their types, widget instances, the template
    renderer and the value structures passed between them. Only what the
    field tree reads of them is modelled. */
module Collaborators {
  import opened Wrappers

  /** A value structure: a pstruct (parsed submission), a cstruct (widget
      output) or an appstruct (schema output). */
  datatype Data =
    | Null
    | Str(s: string)
    | Items(items: seq<Data>)
    | Mapping(entries: map<string, Data>)

  /** colander.Invalid: a message and the errors of sub-nodes. */
  datatype Invalid = Invalid(msg: string, pos: Option<nat>, children: seq<Invalid>)

  /** Which widget class a factory instantiates. */
  datatype WidgetKind = TextInputWidget | FormWidget | OtherWidget(className: string)

  /** A widget instance. Widgets are objects: a memoised widget is the same
      object on every read, and a freshly made one is a new object. */
  class Widget {
    const kind: WidgetKind

    constructor (kind: WidgetKind)
      ensures this.kind == kind
    {
      this.kind := kind;
    }
  }

  /** A colander schema type; `defaultWidgetMaker` is its optional
      `default_widget_maker` attribute. */
  datatype SchemaType = SchemaType(typeName: string, defaultWidgetMaker: Option<WidgetKind>)

  /** An immutable schema node, shared by every field built from it. */
  datatype SchemaNode = SchemaNode(
    typ: SchemaType,
    name: string,
    title: string,
    description: string,
    required: bool,
    sdefault: Data,
    children: seq<SchemaNode>)

  /** What `schema.deserialize(cstruct)` does: return a value or raise Invalid. */
  datatype SchemaOutcome = Deserialized(value: Data) | Raised(error: Invalid)

  /** A template renderer, identified by the template directories it searches. */
  datatype Renderer = Renderer(searchPath: seq<string>)

  /** template.default_renderer: only deform's own templates. */
  const DefaultRenderer := Renderer(["deform/templates/"])

  /** `renderer or template.default_renderer`. */
  function ResolveRenderer(renderer: Option<Renderer>): Renderer
  {
    match renderer
    case Some(given) => given
    case None => DefaultRenderer
  }

  /** The widget class a field of this type gets when none was assigned:
      the type's `default_widget_maker`, else TextInputWidget. */
  function DefaultWidgetKind(t: SchemaType): WidgetKind
  {
    match t.defaultWidgetMaker
    case Some(maker) => maker
    case None => TextInputWidget
  }
}
