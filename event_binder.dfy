/** The binding decorators (frontend/pages/page_managers/event_binder.py):
    each leaves its metadata on the decorated page method, appended to a list
    kept under a named attribute. A method is its name and its attributes. */
module EventBinders {
  import opened Wrappers

  /** One entry a decorator appends: `(element_id, event_type)` for an input
      binding, the game action for a callback binding. */
  datatype Tag = InputTag(elementId: Option<string>, eventType: int) | ActionTag(action: string)

  /** A page method with the lists its decorators attached, by attribute
      name. */
  datatype PageMethod = PageMethod(name: string, attrs: map<string, seq<Tag>>)

  /** The attribute `input_event_bind` writes. */
  const InputAttr := "input_bindings"

  /** The attribute `callback_event_bind` writes. */
  const ActionAttr := "page_bindings"

  /** `getattr(method, attr, [])`. */
  function Tags(m: PageMethod, attr: string): seq<Tag>
  {
    if attr in m.attrs then m.attrs[attr] else []
  }

  /** `@input_event_bind(element_id, event_type)`: the pair is appended to the
      method's `input_bindings`; every other attribute is kept. */
  function InputEventBind(m: PageMethod, elementId: Option<string>, eventType: int): (r: PageMethod)
    ensures r.name == m.name
    ensures Tags(r, InputAttr) == Tags(m, InputAttr) + [InputTag(elementId, eventType)]
    ensures forall a :: a != InputAttr ==> Tags(r, a) == Tags(m, a)
  {
    m.(attrs := m.attrs[InputAttr := Tags(m, InputAttr) + [InputTag(elementId, eventType)]])
  }

  /** `@callback_event_bind(game_action)`: the action is appended to the
      method's `page_bindings`; every other attribute is kept. */
  function CallbackEventBind(m: PageMethod, action: string): (r: PageMethod)
    ensures r.name == m.name
    ensures Tags(r, ActionAttr) == Tags(m, ActionAttr) + [ActionTag(action)]
    ensures forall a :: a != ActionAttr ==> Tags(r, a) == Tags(m, a)
  {
    m.(attrs := m.attrs[ActionAttr := Tags(m, ActionAttr) + [ActionTag(action)]])
  }

  /** Only the two decorators have written attributes on the method. */
  predicate DecoratedOnly(m: PageMethod)
  {
    forall a :: a in m.attrs ==> a == InputAttr || a == ActionAttr
  }
}
