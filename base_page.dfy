/** The base page (frontend/pages/page_managers/base_page.py): whether a page
    is shown, how it routes input events to the handlers bound to an element
    id prefix and an event type, how it routes page callbacks to the handlers
    bound to an action, and how a hidden page lets gestures through. Handlers
    are named; running one is recorded, not performed. */
module BasePages {
  import opened Wrappers
  import ElementManagers
  import PageRegistries
  import EventBinders

  /** `object_id.split(".")[-1]`: the text after the last '.', or all of it
      when there is none. */
  function Leaf(s: string): (r: string)
    ensures '.' !in r
    ensures |r| <= |s| && r == s[|s| - |r|..]
    ensures |r| < |s| ==> s[|s| - |r| - 1] == '.'
  {
    if s == [] then []
    else if s[|s| - 1] == '.' then []
    else Leaf(s[..|s| - 1]) + [s[|s| - 1]]
  }

  /** `get_leaf_object_id`: None for None and for the empty id. */
  function GetLeafObjectId(objectId: Option<string>): Option<string>
  {
    if objectId.None? || objectId.value == "" then None else Some(Leaf(objectId.value))
  }

  /** An id without '.' is its own leaf. */
  lemma {:induction false} LeafOfPlain(s: string)
    requires '.' !in s
    ensures Leaf(s) == s
  {
    if s != [] {
      assert s == s[..|s| - 1] + [s[|s| - 1]];
      LeafOfPlain(s[..|s| - 1]);
    }
  }

  /** The leaf of a qualified id is the leaf of its last segment. */
  lemma {:induction false} LeafOfQualified(panel: string, leaf: string)
    requires '.' !in leaf
    ensures Leaf(panel + "." + leaf) == leaf
  {
    if leaf == [] {
      assert (panel + "." + leaf)[|panel + "." + leaf| - 1] == '.';
    } else {
      var s := panel + "." + leaf;
      assert s[..|s| - 1] == panel + "." + leaf[..|leaf| - 1];
      assert leaf == leaf[..|leaf| - 1] + [leaf[|leaf| - 1]];
      LeafOfQualified(panel, leaf[..|leaf| - 1]);
    }
  }

  /** Taking the leaf twice gives the leaf, except for an id that ends with
      '.', whose leaf is the empty id and so becomes None. */
  lemma LeafIdempotent(objectId: Option<string>)
    ensures GetLeafObjectId(objectId) != Some("") ==> GetLeafObjectId(GetLeafObjectId(objectId)) == GetLeafObjectId(objectId)
    ensures GetLeafObjectId(objectId) == Some("") <==> objectId.Some? && objectId.value != "" && objectId.value[|objectId.value| - 1] == '.'
  {
    if objectId.Some? && objectId.value != "" {
      LeafOfPlain(Leaf(objectId.value));
      LeafEmpty(objectId.value);
    }
  }

  /** A non-empty id has an empty leaf iff it ends with '.'. */
  lemma LeafEmpty(s: string)
    requires s != ""
    ensures Leaf(s) == "" <==> s[|s| - 1] == '.'
  {
    if s[|s| - 1] != '.' {
      assert |Leaf(s)| == |Leaf(s[..|s| - 1])| + 1;
    }
  }

  /** An id ending in '.' is the one case where the leaf is not stable. */
  lemma LeafNotIdempotent()
    ensures GetLeafObjectId(Some("panel.")) == Some("")
    ensures GetLeafObjectId(GetLeafObjectId(Some("panel."))) == None
  {
  }

  /** `str.startswith`. */
  predicate StartsWith(s: string, prefix: string)
  {
    |prefix| <= |s| && s[..|prefix|] == prefix
  }

  /** A key of `_input_bindings` with the name of the handler bound to it. */
  datatype InputBinding = InputBinding(prefix: Option<string>, eventType: int, handler: string)

  /** A key of `_callback_bindings` with the name of the handler bound to it. */
  datatype CallbackBinding = CallbackBinding(action: string, handler: string)

  /** Whether an input binding fires for an event of the given type whose
      element has the given leaf id: the types agree, and the binding is
      global (prefix None) or the leaf is a non-empty id that starts with the
      prefix. */
  predicate Fires(b: InputBinding, leaf: Option<string>, eventType: int)
  {
    && b.eventType == eventType
    && (b.prefix.None? || (leaf.Some? && leaf.value != "" && (leaf.value == b.prefix.value || StartsWith(leaf.value, b.prefix.value))))
  }

  /** The handlers of the bindings that fire, in binding order. */
  function Firing(bs: seq<InputBinding>, leaf: Option<string>, eventType: int): seq<string>
  {
    if bs == [] then []
    else
      var rest := Firing(bs[..|bs| - 1], leaf, eventType);
      if Fires(bs[|bs| - 1], leaf, eventType) then rest + [bs[|bs| - 1].handler] else rest
  }

  /** The handlers that run are those of the firing bindings, each once per
      binding, in binding order: none run iff no binding fires. */
  lemma {:induction false} FiringMeaning(bs: seq<InputBinding>, leaf: Option<string>, eventType: int)
    ensures |Firing(bs, leaf, eventType)| <= |bs|
    ensures Firing(bs, leaf, eventType) == [] <==> forall i :: 0 <= i < |bs| ==> !Fires(bs[i], leaf, eventType)
    ensures forall i :: 0 <= i < |bs| && Fires(bs[i], leaf, eventType) ==> bs[i].handler in Firing(bs, leaf, eventType)
    ensures forall h :: h in Firing(bs, leaf, eventType) ==> exists i :: 0 <= i < |bs| && bs[i].handler == h && Fires(bs[i], leaf, eventType)
  {
    if bs != [] {
      var init := bs[..|bs| - 1];
      FiringMeaning(init, leaf, eventType);
      assert forall i :: 0 <= i < |init| ==> bs[i] == init[i];
    }
  }

  /** A global binding fires for every event of its type, with or without an
      element; a bound prefix never fires for an event without an element id. */
  lemma GlobalAndTargeted(b: InputBinding, leaf: Option<string>, eventType: int)
    ensures b.prefix.None? && b.eventType == eventType ==> Fires(b, leaf, eventType)
    ensures b.prefix.Some? && (leaf.None? || leaf == Some("")) ==> !Fires(b, leaf, eventType)
    ensures b.prefix == Some("") && b.eventType == eventType && leaf.Some? && leaf.value != "" ==> Fires(b, leaf, eventType)
  {
  }

  /** The handlers bound to an action, in binding order. */
  function Bound(bs: seq<CallbackBinding>, action: string): seq<string>
  {
    if bs == [] then []
    else
      var rest := Bound(bs[..|bs| - 1], action);
      if bs[|bs| - 1].action == action then rest + [bs[|bs| - 1].handler] else rest
  }

  /** The actions of a dict are its keys, each bound once. */
  predicate DistinctActions(bs: seq<CallbackBinding>)
  {
    forall i, j :: 0 <= i < j < |bs| ==> bs[i].action != bs[j].action
  }

  /** Exactly the handler bound to the action runs, or none when no handler
      is bound to it. */
  lemma {:induction false} BoundMeaning(bs: seq<CallbackBinding>, action: string)
    requires DistinctActions(bs)
    ensures |Bound(bs, action)| <= 1
    ensures Bound(bs, action) == [] <==> forall i :: 0 <= i < |bs| ==> bs[i].action != action
    ensures forall i :: 0 <= i < |bs| && bs[i].action == action ==> Bound(bs, action) == [bs[i].handler]
  {
    if bs != [] {
      var init := bs[..|bs| - 1];
      assert forall i :: 0 <= i < |init| ==> bs[i] == init[i];
      BoundMeaning(init, action);
    }
  }

  // ----- setup_event_bindings -----

  /** Some binding of the list has the key (prefix, eventType). */
  predicate HasInputKey(bs: seq<InputBinding>, prefix: Option<string>, eventType: int)
  {
    exists b :: b in bs && b.prefix == prefix && b.eventType == eventType
  }

  /** Each key of `_input_bindings` is bound once, as in a dict. */
  predicate DistinctInputKeys(bs: seq<InputBinding>)
  {
    forall i, j :: 0 <= i < j < |bs| ==> bs[i].prefix != bs[j].prefix || bs[i].eventType != bs[j].eventType
  }

  /** Some binding of the list is bound to the action. */
  predicate HasAction(bs: seq<CallbackBinding>, action: string)
  {
    exists b :: b in bs && b.action == action
  }

  /** `_input_bindings[(prefix, event_type)] = handler`: a new key goes last,
      a bound key keeps its place and takes the new handler. */
  function PutInput(bs: seq<InputBinding>, prefix: Option<string>, eventType: int, handler: string): seq<InputBinding>
  {
    if bs == [] then [InputBinding(prefix, eventType, handler)]
    else if bs[0].prefix == prefix && bs[0].eventType == eventType then [InputBinding(prefix, eventType, handler)] + bs[1..]
    else [bs[0]] + PutInput(bs[1..], prefix, eventType, handler)
  }

  /** The dict assignment binds the key to the handler, keeps every
      binding of another key and adds nothing else. */
  lemma {:induction false} PutInputMeaning(bs: seq<InputBinding>, prefix: Option<string>, eventType: int, handler: string)
    ensures InputBinding(prefix, eventType, handler) in PutInput(bs, prefix, eventType, handler)
    ensures forall b :: b in bs && (b.prefix != prefix || b.eventType != eventType) ==> b in PutInput(bs, prefix, eventType, handler)
    ensures forall b :: b in PutInput(bs, prefix, eventType, handler) ==> b == InputBinding(prefix, eventType, handler) || b in bs
  {
    if bs != [] {
      assert forall b :: b in bs ==> b == bs[0] || b in bs[1..];
      if bs[0].prefix != prefix || bs[0].eventType != eventType {
        PutInputMeaning(bs[1..], prefix, eventType, handler);
      }
    }
  }

  /** A binding whose key the distinct list lacks can go in front of it. */
  lemma ConsDistinctInput(x: InputBinding, bs: seq<InputBinding>)
    requires DistinctInputKeys(bs)
    requires forall b :: b in bs ==> b.prefix != x.prefix || b.eventType != x.eventType
    ensures DistinctInputKeys([x] + bs)
  {
    var r := [x] + bs;
    forall i, j | 0 <= i < j < |r|
      ensures r[i].prefix != r[j].prefix || r[i].eventType != r[j].eventType
    {
      assert r[j] == bs[j - 1];
      if i > 0 {
        assert r[i] == bs[i - 1];
      }
    }
  }

  /** The dict assignment keeps the keys distinct. */
  lemma {:induction false} PutInputDistinct(bs: seq<InputBinding>, prefix: Option<string>, eventType: int, handler: string)
    requires DistinctInputKeys(bs)
    ensures DistinctInputKeys(PutInput(bs, prefix, eventType, handler))
  {
    if bs != [] {
      var tail := bs[1..];
      if bs[0].prefix == prefix && bs[0].eventType == eventType {
        ConsDistinctInput(InputBinding(prefix, eventType, handler), tail);
      } else {
        PutInputDistinct(tail, prefix, eventType, handler);
        PutInputMeaning(tail, prefix, eventType, handler);
        ConsDistinctInput(bs[0], PutInput(tail, prefix, eventType, handler));
      }
    }
  }

  /** `_callback_bindings[action] = handler`. */
  function PutAction(bs: seq<CallbackBinding>, action: string, handler: string): seq<CallbackBinding>
  {
    if bs == [] then [CallbackBinding(action, handler)]
    else if bs[0].action == action then [CallbackBinding(action, handler)] + bs[1..]
    else [bs[0]] + PutAction(bs[1..], action, handler)
  }

  /** The dict assignment binds the action to the handler, keeps every
      binding of another action and adds nothing else. */
  lemma {:induction false} PutActionMeaning(bs: seq<CallbackBinding>, action: string, handler: string)
    ensures CallbackBinding(action, handler) in PutAction(bs, action, handler)
    ensures forall b :: b in bs && b.action != action ==> b in PutAction(bs, action, handler)
    ensures forall b :: b in PutAction(bs, action, handler) ==> b == CallbackBinding(action, handler) || b in bs
  {
    if bs != [] {
      assert forall b :: b in bs ==> b == bs[0] || b in bs[1..];
      if bs[0].action != action {
        PutActionMeaning(bs[1..], action, handler);
      }
    }
  }

  /** A binding whose action the distinct list lacks can go in front of it. */
  lemma ConsDistinctAction(x: CallbackBinding, bs: seq<CallbackBinding>)
    requires DistinctActions(bs)
    requires forall b :: b in bs ==> b.action != x.action
    ensures DistinctActions([x] + bs)
  {
    var r := [x] + bs;
    forall i, j | 0 <= i < j < |r|
      ensures r[i].action != r[j].action
    {
      assert r[j] == bs[j - 1];
      if i > 0 {
        assert r[i] == bs[i - 1];
      }
    }
  }

  /** The dict assignment keeps the actions distinct. */
  lemma {:induction false} PutActionDistinct(bs: seq<CallbackBinding>, action: string, handler: string)
    requires DistinctActions(bs)
    ensures DistinctActions(PutAction(bs, action, handler))
  {
    if bs != [] {
      var tail := bs[1..];
      if bs[0].action == action {
        ConsDistinctAction(CallbackBinding(action, handler), tail);
      } else {
        PutActionDistinct(tail, action, handler);
        PutActionMeaning(tail, action, handler);
        ConsDistinctAction(bs[0], PutAction(tail, action, handler));
      }
    }
  }

  /** The input half of one method's step of the scan: each of its input
      tags in turn is bound to it in `_input_bindings`. */
  function ScanInputTags(ib: seq<InputBinding>, name: string, tags: seq<EventBinders.Tag>): seq<InputBinding>
    decreases tags
  {
    if tags == [] then ib
    else
      var ib' := if tags[0].InputTag? then PutInput(ib, tags[0].elementId, tags[0].eventType, name) else ib;
      ScanInputTags(ib', name, tags[1..])
  }

  /** What the input half does: each tagged key is bound to the method, the
      keys bound before stay bound, every new binding comes from one of its
      tags, and the keys stay distinct. */
  lemma {:induction false} ScanInputTagsMeaning(ib: seq<InputBinding>, name: string, tags: seq<EventBinders.Tag>)
    decreases tags
    ensures var r := ScanInputTags(ib, name, tags);
            && (forall t :: t in tags && t.InputTag? ==> InputBinding(t.elementId, t.eventType, name) in r)
            && (forall p, e :: HasInputKey(ib, p, e) ==> HasInputKey(r, p, e))
            && (forall b :: b in ib && b.handler == name ==> b in r)
            && (forall b :: b in r ==> b in ib || (b.handler == name && EventBinders.InputTag(b.prefix, b.eventType) in tags))
            && (DistinctInputKeys(ib) ==> DistinctInputKeys(r))
  {
    if tags != [] {
      var t := tags[0];
      var ib' := if t.InputTag? then PutInput(ib, t.elementId, t.eventType, name) else ib;
      if t.InputTag? {
        PutInputMeaning(ib, t.elementId, t.eventType, name);
        if DistinctInputKeys(ib) {
          PutInputDistinct(ib, t.elementId, t.eventType, name);
        }
        forall p, e | HasInputKey(ib, p, e)
          ensures HasInputKey(ib', p, e)
        {
          var b :| b in ib && b.prefix == p && b.eventType == e;
          if b.prefix == t.elementId && b.eventType == t.eventType {
            assert InputBinding(t.elementId, t.eventType, name) in ib';
          } else {
            assert b in ib';
          }
        }
      }
      ScanInputTagsMeaning(ib', name, tags[1..]);
      var r := ScanInputTags(ib, name, tags);
      assert forall u :: u in tags ==> u == t || u in tags[1..];
      if t.InputTag? {
        assert InputBinding(t.elementId, t.eventType, name) in ib';
      }
    }
  }

  /** The callback half of one method's step: each of its action tags in
      turn is bound to it in `_callback_bindings`. */
  function ScanActionTags(cb: seq<CallbackBinding>, name: string, tags: seq<EventBinders.Tag>): seq<CallbackBinding>
    decreases tags
  {
    if tags == [] then cb
    else
      var cb' := if tags[0].ActionTag? then PutAction(cb, tags[0].action, name) else cb;
      ScanActionTags(cb', name, tags[1..])
  }

  /** What the callback half does: each tagged action is bound to the
      method, the actions bound before stay bound, every new binding comes
      from one of its tags, and the actions stay distinct. */
  lemma {:induction false} ScanActionTagsMeaning(cb: seq<CallbackBinding>, name: string, tags: seq<EventBinders.Tag>)
    decreases tags
    ensures var r := ScanActionTags(cb, name, tags);
            && (forall t :: t in tags && t.ActionTag? ==> CallbackBinding(t.action, name) in r)
            && (forall a :: HasAction(cb, a) ==> HasAction(r, a))
            && (forall b :: b in cb && b.handler == name ==> b in r)
            && (forall b :: b in r ==> b in cb || (b.handler == name && EventBinders.ActionTag(b.action) in tags))
            && (DistinctActions(cb) ==> DistinctActions(r))
  {
    if tags != [] {
      var t := tags[0];
      var cb' := if t.ActionTag? then PutAction(cb, t.action, name) else cb;
      if t.ActionTag? {
        PutActionMeaning(cb, t.action, name);
        if DistinctActions(cb) {
          PutActionDistinct(cb, t.action, name);
        }
        forall a | HasAction(cb, a)
          ensures HasAction(cb', a)
        {
          var b :| b in cb && b.action == a;
          if b.action == t.action {
            assert CallbackBinding(t.action, name) in cb';
          } else {
            assert b in cb';
          }
        }
      }
      ScanActionTagsMeaning(cb', name, tags[1..]);
      var r := ScanActionTags(cb, name, tags);
      assert forall u :: u in tags ==> u == t || u in tags[1..];
      if t.ActionTag? {
        assert CallbackBinding(t.action, name) in cb';
      }
    }
  }

  /** `setup_event_bindings` over the page's callable attributes, in the
      order `dir` lists them, reading each method's input tags from the
      attribute `inputAttr` and its action tags from `actionAttr`; a later
      method rebinds a key an earlier one bound. */
  function Scan(ib: seq<InputBinding>, cb: seq<CallbackBinding>, ms: seq<EventBinders.PageMethod>,
                inputAttr: string, actionAttr: string): (seq<InputBinding>, seq<CallbackBinding>)
    decreases ms
  {
    if ms == [] then (ib, cb)
    else
      Scan(ScanInputTags(ib, ms[0].name, EventBinders.Tags(ms[0], inputAttr)),
           ScanActionTags(cb, ms[0].name, EventBinders.Tags(ms[0], actionAttr)), ms[1..], inputAttr, actionAttr)
  }

  /** What the scan does, whichever attributes it reads: every key tagged on
      a method is bound, the keys bound before stay bound, every new binding
      runs a method that carries its tag, and the keys stay distinct. */
  lemma {:induction false} ScanMeaning(ib: seq<InputBinding>, cb: seq<CallbackBinding>, ms: seq<EventBinders.PageMethod>,
                                       inputAttr: string, actionAttr: string)
    decreases ms
    ensures var r := Scan(ib, cb, ms, inputAttr, actionAttr);
            && (forall m, t :: m in ms && t in EventBinders.Tags(m, inputAttr) && t.InputTag? ==> HasInputKey(r.0, t.elementId, t.eventType))
            && (forall m, t :: m in ms && t in EventBinders.Tags(m, actionAttr) && t.ActionTag? ==> HasAction(r.1, t.action))
            && (forall p, e :: HasInputKey(ib, p, e) ==> HasInputKey(r.0, p, e))
            && (forall a :: HasAction(cb, a) ==> HasAction(r.1, a))
            && (forall b :: b in r.0 ==> b in ib || exists m :: m in ms && m.name == b.handler && EventBinders.InputTag(b.prefix, b.eventType) in EventBinders.Tags(m, inputAttr))
            && (forall b :: b in r.1 ==> b in cb || exists m :: m in ms && m.name == b.handler && EventBinders.ActionTag(b.action) in EventBinders.Tags(m, actionAttr))
            && (DistinctInputKeys(ib) ==> DistinctInputKeys(r.0))
            && (DistinctActions(cb) ==> DistinctActions(r.1))
  {
    if ms != [] {
      var m0 := ms[0];
      var ib' := ScanInputTags(ib, m0.name, EventBinders.Tags(m0, inputAttr));
      var cb' := ScanActionTags(cb, m0.name, EventBinders.Tags(m0, actionAttr));
      ScanInputTagsMeaning(ib, m0.name, EventBinders.Tags(m0, inputAttr));
      ScanActionTagsMeaning(cb, m0.name, EventBinders.Tags(m0, actionAttr));
      ScanMeaning(ib', cb', ms[1..], inputAttr, actionAttr);
      assert forall m :: m in ms ==> m == m0 || m in ms[1..];
      forall m, t | m in ms && t in EventBinders.Tags(m, inputAttr) && t.InputTag?
        ensures HasInputKey(Scan(ib, cb, ms, inputAttr, actionAttr).0, t.elementId, t.eventType)
      {
        if m == m0 {
          assert InputBinding(t.elementId, t.eventType, m0.name) in ib';
          assert HasInputKey(ib', t.elementId, t.eventType);
        }
      }
      forall m, t | m in ms && t in EventBinders.Tags(m, actionAttr) && t.ActionTag?
        ensures HasAction(Scan(ib, cb, ms, inputAttr, actionAttr).1, t.action)
      {
        if m == m0 {
          assert CallbackBinding(t.action, m0.name) in cb';
          assert HasAction(cb', t.action);
        }
      }
    }
  }

  /** The scan as written: it looks for `_input_bindings` and
      `_callback_bindings`, while the decorators write `input_bindings` and
      `page_bindings`. */
  function SetupEventBindingsAsWritten(ms: seq<EventBinders.PageMethod>): (seq<InputBinding>, seq<CallbackBinding>)
  {
    Scan([], [], ms, "_input_bindings", "_callback_bindings")
  }

  /** The scan as intended: it reads the attributes the decorators write. */
  function SetupEventBindings(ms: seq<EventBinders.PageMethod>): (seq<InputBinding>, seq<CallbackBinding>)
  {
    Scan([], [], ms, EventBinders.InputAttr, EventBinders.ActionAttr)
  }

  /** A scan that finds no tags on any method binds nothing. */
  lemma {:induction false} UntaggedScan(ms: seq<EventBinders.PageMethod>, inputAttr: string, actionAttr: string)
    requires forall m :: m in ms ==> inputAttr !in m.attrs && actionAttr !in m.attrs
    ensures Scan([], [], ms, inputAttr, actionAttr) == ([], [])
  {
    if ms != [] {
      assert ms[0] in ms;
      assert forall m :: m in ms[1..] ==> m in ms;
      UntaggedScan(ms[1..], inputAttr, actionAttr);
    }
  }

  /** As written, a page whose methods carry only the decorators' tags ends
      with both binding tables empty. */
  lemma AsWrittenBindsNothing(ms: seq<EventBinders.PageMethod>)
    requires forall m :: m in ms ==> EventBinders.DecoratedOnly(m)
    ensures SetupEventBindingsAsWritten(ms) == ([], [])
  {
    UntaggedScan(ms, "_input_bindings", "_callback_bindings");
  }

  /** As intended, each key is bound once, every key a decorator tagged is
      bound, and every binding runs a method that carries its tag. */
  lemma SetupEventBindingsMeaning(ms: seq<EventBinders.PageMethod>)
    ensures var r := SetupEventBindings(ms);
            && DistinctInputKeys(r.0) && DistinctActions(r.1)
            && (forall m, t :: m in ms && t in EventBinders.Tags(m, EventBinders.InputAttr) && t.InputTag? ==> HasInputKey(r.0, t.elementId, t.eventType))
            && (forall m, t :: m in ms && t in EventBinders.Tags(m, EventBinders.ActionAttr) && t.ActionTag? ==> HasAction(r.1, t.action))
            && (forall b :: b in r.0 ==> exists m :: m in ms && m.name == b.handler && EventBinders.InputTag(b.prefix, b.eventType) in EventBinders.Tags(m, EventBinders.InputAttr))
            && (forall b :: b in r.1 ==> exists m :: m in ms && m.name == b.handler && EventBinders.ActionTag(b.action) in EventBinders.Tags(m, EventBinders.ActionAttr))
  {
    ScanMeaning([], [], ms, EventBinders.InputAttr, EventBinders.ActionAttr);
  }

  /** pygame's `QUIT` event type. */
  const QuitEvent := 256

  /** The base page's `quit_game`, bound to `QUIT` with no element: the scan
      as written leaves it unbound, so closing the window reaches no handler;
      the intended scan binds it. */
  lemma QuitNeverBound()
    ensures var m := EventBinders.InputEventBind(EventBinders.PageMethod("quit_game", map[]), None, QuitEvent);
            && SetupEventBindingsAsWritten([m]) == ([], [])
            && SetupEventBindings([m]) == ([InputBinding(None, QuitEvent, "quit_game")], [])
  {
    var m := EventBinders.InputEventBind(EventBinders.PageMethod("quit_game", map[]), None, QuitEvent);
    AsWrittenBindsNothing([m]);
    var tags := EventBinders.Tags(m, EventBinders.InputAttr);
    assert tags == [EventBinders.InputTag(None, QuitEvent)];
    assert EventBinders.Tags(m, EventBinders.ActionAttr) == [];
    var ib := ScanInputTags([], "quit_game", tags);
    assert ib == ScanInputTags([InputBinding(None, QuitEvent, "quit_game")], "quit_game", tags[1..]);
    assert ib == [InputBinding(None, QuitEvent, "quit_game")];
    assert ScanActionTags([], "quit_game", []) == [];
    assert SetupEventBindings([m]) == Scan(ib, [], [m][1..], EventBinders.InputAttr, EventBinders.ActionAttr);
    assert [m][1..] == [];
  }

  /** A page whose "tile" collection holds the tile "t1": the lookup as
      written asks for a collection named "t1" and fails, the intended one
      finds the tile. */
  lemma SwappedLookupMisses(page: Page, w: ElementManagers.ElementWrapper)
    requires w.registeredName == "t1" && page.elements.collections == map["tile" := [w]]
    ensures page.GetElementAsWritten("tile", "t1") == Err(KeyError)
    ensures page.GetElement("tile", "t1") == Ok(w)
  {
    assert page.elements.collections["tile"][0].registeredName == "t1";
  }

  class Page {
    /** The page's class. */
    const kind: PageRegistries.PageType
    const isBlocking: bool
    var isVisible: bool
    /** `_input_bindings`, in insertion order. */
    var inputBindings: seq<InputBinding>
    /** `_callback_bindings`, in insertion order. */
    var callbackBindings: seq<CallbackBinding>
    const elements: ElementManagers.ElementManager

    /** A new page of a class, which decides whether it blocks the pages below
        it; it starts visible. */
    constructor (kind: PageRegistries.PageType, inputBindings: seq<InputBinding>, callbackBindings: seq<CallbackBinding>, elements: ElementManagers.ElementManager)
      ensures this.kind == kind && isBlocking == kind.blocking && isVisible
      ensures this.inputBindings == inputBindings && this.callbackBindings == callbackBindings
      ensures this.elements == elements
    {
      this.kind := kind;
      isBlocking := kind.blocking;
      isVisible := true;
      this.inputBindings := inputBindings;
      this.callbackBindings := callbackBindings;
      this.elements := elements;
    }

    /** `get_element` as written: it hands the element type and id to
        `get_element_wrapper` in the wrong order, so the id is taken for the
        collection and the type for the name. */
    function GetElementAsWritten(elementType: string, elementId: string): (r: Result<ElementManagers.ElementWrapper>)
      reads elements
      ensures elementId !in elements.collections ==> r == Err(KeyError)
      ensures r.Ok? ==> r.value.registeredName == elementType
    {
      elements.GetElementWrapper(elementType, elementId)
    }

    /** `get_element` as evidently intended: the element of that type (its
        collection) registered under that id. */
    function GetElement(elementType: string, elementId: string): (r: Result<ElementManagers.ElementWrapper>)
      reads elements
      ensures r.Ok? <==> elementType in elements.collections &&
                         exists i :: 0 <= i < |elements.collections[elementType]| && elements.collections[elementType][i].registeredName == elementId
      ensures r.Ok? ==> r.value in elements.collections[elementType] && r.value.registeredName == elementId
      ensures r.Err? ==> r.error == KeyError
    {
      elements.GetElementWrapper(elementId, elementType)
    }

    method Hide()
      modifies this`isVisible
      ensures !isVisible
    {
      isVisible := false;
    }

    method Show()
      modifies this`isVisible
      ensures isVisible
    {
      isVisible := true;
    }

    /** `handle_gestures`: a hidden page hands every gesture back; a visible
        one lets its elements take theirs. */
    method HandleGestures<G>(gestures: seq<G>, accepts: (ElementManagers.ElementWrapper, G) -> bool) returns (remaining: seq<G>)
      ensures !isVisible ==> remaining == gestures
      ensures isVisible ==> remaining == ElementManagers.Unconsumed(gestures, elements.flattened, accepts)
    {
      if !isVisible {
        return gestures;
      }
      var takers;
      remaining, takers := elements.HandleGestures(gestures, accepts);
    }

    /** `execute_input_callback`: runs, in binding order, every handler whose
        binding fires for the event's leaf element id and type, and reports
        whether any ran. */
    method ExecuteInputCallback(objectId: Option<string>, eventType: int) returns (executed: bool, ran: seq<string>)
      ensures ran == Firing(inputBindings, GetLeafObjectId(objectId), eventType)
      ensures executed <==> ran != []
    {
      var leaf := GetLeafObjectId(objectId);
      executed := false;
      ran := [];
      var i := 0;
      while i < |inputBindings|
        invariant 0 <= i <= |inputBindings|
        invariant ran == Firing(inputBindings[..i], leaf, eventType)
        invariant executed <==> ran != []
      {
        assert inputBindings[..i + 1][..i] == inputBindings[..i];
        var b := inputBindings[i];
        if b.eventType != eventType {
          i := i + 1;
          continue;
        }
        if b.prefix.None? || (leaf.Some? && leaf.value != "" && (leaf.value == b.prefix.value || StartsWith(leaf.value, b.prefix.value))) {
          ran := ran + [b.handler];
          executed := true;
        }
        i := i + 1;
      }
      assert inputBindings[..i] == inputBindings;
    }

    /** `execute_page_callback`: runs the handlers bound to the action and
        reports whether any ran. */
    method ExecutePageCallback(action: string) returns (executed: bool, ran: seq<string>)
      ensures ran == Bound(callbackBindings, action)
      ensures executed <==> ran != []
    {
      executed := false;
      ran := [];
      var i := 0;
      while i < |callbackBindings|
        invariant 0 <= i <= |callbackBindings|
        invariant ran == Bound(callbackBindings[..i], action)
        invariant executed <==> ran != []
      {
        assert callbackBindings[..i + 1][..i] == callbackBindings[..i];
        if callbackBindings[i].action == action {
          ran := ran + [callbackBindings[i].handler];
          executed := true;
        }
        i := i + 1;
      }
      assert callbackBindings[..i] == callbackBindings;
    }
  }
}
