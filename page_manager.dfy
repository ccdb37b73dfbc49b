/** The page manager (frontend/pages/page_managers/page_manager.py): the stack
    of open pages (first is the bottom, last the top), the navigation commands
    that edit it, the start/stop machine for the game back end that drains the
    game-manager mailbox, and the rule that input goes to the pages from the
    top down to the first blocking one. */
module PageManagers {
  import opened Wrappers
  import opened PageRegistries
  import BasePages
  import ElementManagers
  import Elements

  type Page = BasePages.Page

  /** The classes of the pages on a stack. */
  function Kinds(stack: seq<Page>): (ks: seq<PageType>)
    ensures |ks| == |stack|
    ensures forall i :: 0 <= i < |stack| ==> ks[i] == stack[i].kind
  {
    if stack == [] then [] else Kinds(stack[..|stack| - 1]) + [stack[|stack| - 1].kind]
  }

  /** No class has two pages on the stack. */
  predicate DistinctKinds(ks: seq<PageType>)
  {
    forall i, j :: 0 <= i < j < |ks| ==> ks[i] != ks[j]
  }

  /** `get_page`'s index: the first (lowest) page of the class, or KeyError. */
  function IndexOf(ks: seq<PageType>, k: PageType): (r: Result<nat>)
    ensures r.Ok? <==> k in ks
    ensures r.Ok? ==> r.value < |ks| && ks[r.value] == k && k !in ks[..r.value]
    ensures r.Err? ==> r.error == KeyError
  {
    if ks == [] then Err(KeyError)
    else if ks[0] == k then Ok(0)
    else
      match IndexOf(ks[1..], k)
      case Err(e) => Err(e)
      case Ok(i) =>
        assert ks[..i + 1] == [ks[0]] + ks[1..][..i];
        Ok(i + 1)
  }

  /** `open_page` on the classes: a class already on the stack is left where
      it is, otherwise a page of it goes on top. */
  function Open(ks: seq<PageType>, k: PageType): seq<PageType>
  {
    if k in ks then ks else ks + [k]
  }

  /** `remove_top_page`: IndexError on an empty stack. */
  function RemoveTop(ks: seq<PageType>): (r: Result<seq<PageType>>)
  {
    if ks == [] then Err(IndexError) else Ok(ks[..|ks| - 1])
  }

  /** `replace_top_page`: nothing on an empty stack; otherwise the top goes and
      the class is opened (which does nothing if it is already lower down). */
  function ReplaceTop(ks: seq<PageType>, k: PageType): seq<PageType>
  {
    if ks == [] then ks else Open(ks[..|ks| - 1], k)
  }

  function Swap(ks: seq<PageType>, i: nat): (r: seq<PageType>)
    requires i + 1 < |ks|
    ensures |r| == |ks| && r[i] == ks[i + 1] && r[i + 1] == ks[i]
    ensures forall j :: 0 <= j < |ks| && j != i && j != i + 1 ==> r[j] == ks[j]
    ensures multiset(r) == multiset(ks)
  {
    var r := ks[i := ks[i + 1]][i + 1 := ks[i]];
    assert r == ks[..i] + [ks[i + 1], ks[i]] + ks[i + 2..];
    assert ks == ks[..i] + [ks[i], ks[i + 1]] + ks[i + 2..];
    r
  }

  /** `move_up_page`: KeyError for a class not on the stack; otherwise its
      first page changes places with the page above it, if any. */
  function MoveUp(ks: seq<PageType>, k: PageType): Result<seq<PageType>>
  {
    match IndexOf(ks, k)
    case Err(e) => Err(e)
    case Ok(i) => if i < |ks| - 1 then Ok(Swap(ks, i)) else Ok(ks)
  }

  /** `move_down_page`: the same with the page below. */
  function MoveDown(ks: seq<PageType>, k: PageType): Result<seq<PageType>>
  {
    match IndexOf(ks, k)
    case Err(e) => Err(e)
    case Ok(i) => if i > 0 then Ok(Swap(ks, i - 1)) else Ok(ks)
  }

  /** Opening never puts a second page of a class on the stack, and closing,
      replacing and moving keep the classes distinct too. */
  lemma StackStaysDistinct(ks: seq<PageType>, k: PageType)
    requires DistinctKinds(ks)
    ensures DistinctKinds(Open(ks, k))
    ensures DistinctKinds(ReplaceTop(ks, k))
    ensures DistinctKinds(Elements.RemoveFirst(ks, k))
    ensures MoveUp(ks, k).Ok? ==> DistinctKinds(MoveUp(ks, k).value)
    ensures MoveDown(ks, k).Ok? ==> DistinctKinds(MoveDown(ks, k).value)
  {
    OpenKeepsDistinct(ks, k);
    if ks != [] {
      assert DistinctKinds(ks[..|ks| - 1]);
      OpenKeepsDistinct(ks[..|ks| - 1], k);
    }
    RemoveFirstKeepsDistinct(ks, k);
    MoveKeepsDistinct(ks, k);
  }

  lemma MoveKeepsDistinct(ks: seq<PageType>, k: PageType)
    requires DistinctKinds(ks)
    ensures MoveUp(ks, k).Ok? ==> DistinctKinds(MoveUp(ks, k).value)
    ensures MoveDown(ks, k).Ok? ==> DistinctKinds(MoveDown(ks, k).value)
  {
    if k in ks {
      var i := IndexOf(ks, k).value;
      if i < |ks| - 1 {
        SwapKeepsDistinct(ks, i);
      }
      if i > 0 {
        SwapKeepsDistinct(ks, i - 1);
      }
    }
  }

  lemma OpenKeepsDistinct(ks: seq<PageType>, k: PageType)
    requires DistinctKinds(ks)
    ensures DistinctKinds(Open(ks, k))
  {
  }

  lemma SwapKeepsDistinct(ks: seq<PageType>, i: nat)
    requires i + 1 < |ks| && DistinctKinds(ks)
    ensures DistinctKinds(Swap(ks, i))
  {
    var r := Swap(ks, i);
    forall a, b | 0 <= a < b < |r|
      ensures r[a] != r[b]
    {
      var a' := if a == i then i + 1 else if a == i + 1 then i else a;
      var b' := if b == i then i + 1 else if b == i + 1 then i else b;
      assert r[a] == ks[a'] && r[b] == ks[b'];
      assert a' != b';
    }
  }

  lemma {:induction false} RemoveFirstKeepsDistinct(ks: seq<PageType>, k: PageType)
    requires DistinctKinds(ks)
    ensures DistinctKinds(Elements.RemoveFirst(ks, k))
  {
    if ks != [] && ks[0] != k {
      TailKindsDistinct(ks);
      RemoveFirstKeepsDistinct(ks[1..], k);
      HeadKindGone(ks, k);
      DistinctCons(ks[0], Elements.RemoveFirst(ks[1..], k));
      assert Elements.RemoveFirst(ks, k) == [ks[0]] + Elements.RemoveFirst(ks[1..], k);
    }
  }

  lemma TailKindsDistinct(ks: seq<PageType>)
    requires ks != [] && DistinctKinds(ks)
    ensures DistinctKinds(ks[1..])
  {
    var t := ks[1..];
    forall a, b | 0 <= a < b < |t|
      ensures t[a] != t[b]
    {
      assert t[a] == ks[a + 1] && t[b] == ks[b + 1];
    }
  }

  /** The bottom class does not come back in what is left of the rest. */
  lemma HeadKindGone(ks: seq<PageType>, k: PageType)
    requires ks != [] && DistinctKinds(ks)
    ensures ks[0] !in Elements.RemoveFirst(ks[1..], k)
  {
    forall y | y in Elements.RemoveFirst(ks[1..], k)
      ensures y != ks[0]
    {
      Elements.RemoveFirstWithin(ks[1..], k, y);
      var m :| 0 <= m < |ks[1..]| && ks[1..][m] == y;
      assert ks[1..][m] == ks[m + 1];
    }
  }

  lemma DistinctCons(k: PageType, rest: seq<PageType>)
    requires DistinctKinds(rest) && k !in rest
    ensures DistinctKinds([k] + rest)
  {
    var r := [k] + rest;
    forall a, b | 0 <= a < b < |r|
      ensures r[a] != r[b]
    {
      assert r[b] == rest[b - 1];
      if a > 0 {
        assert r[a] == rest[a - 1];
      }
    }
  }

  /** Moving keeps the pages, only their order changes; a class not on the
      stack raises KeyError; at the top (bottom) moving up (down) changes
      nothing; otherwise the page rises (sinks) by exactly one place. */
  lemma MoveMeaning(ks: seq<PageType>, k: PageType)
    ensures MoveUp(ks, k).Err? <==> k !in ks
    ensures MoveDown(ks, k).Err? <==> k !in ks
    ensures MoveUp(ks, k).Err? ==> MoveUp(ks, k).error == KeyError
    ensures MoveDown(ks, k).Err? ==> MoveDown(ks, k).error == KeyError
    ensures MoveUp(ks, k).Ok? ==> multiset(MoveUp(ks, k).value) == multiset(ks)
    ensures MoveDown(ks, k).Ok? ==> multiset(MoveDown(ks, k).value) == multiset(ks)
    ensures k in ks && ks[|ks| - 1] == k && DistinctKinds(ks) ==> MoveUp(ks, k) == Ok(ks)
    ensures k in ks && ks[0] == k ==> MoveDown(ks, k) == Ok(ks)
    ensures k in ks && IndexOf(ks, k).value < |ks| - 1 ==> MoveUp(ks, k).value[IndexOf(ks, k).value + 1] == k
    ensures k in ks && IndexOf(ks, k).value > 0 ==> MoveDown(ks, k).value[IndexOf(ks, k).value - 1] == k
  {
  }

  /** With one page per class, moving a page up and then down again restores
      the stack. */
  lemma MoveUpThenDown(ks: seq<PageType>, k: PageType)
    requires DistinctKinds(ks) && k in ks && ks[|ks| - 1] != k
    ensures MoveUp(ks, k).Ok? && MoveDown(MoveUp(ks, k).value, k) == Ok(ks)
  {
    var i := IndexOf(ks, k).value;
    assert i + 1 < |ks|;
    SwappedIndex(ks, k, i);
    SwapTwice(ks, i);
  }

  /** After its first page swaps with the one above, a class that has one
      page is found one place higher. */
  lemma SwappedIndex(ks: seq<PageType>, k: PageType, i: nat)
    requires DistinctKinds(ks) && IndexOf(ks, k) == Ok(i) && i + 1 < |ks|
    ensures IndexOf(Swap(ks, i), k) == Ok(i + 1)
  {
    var up := Swap(ks, i);
    forall j | 0 <= j < i + 1
      ensures up[j] != k
    {
      if j < i {
        assert up[j] == ks[..i][j];
      }
    }
    IndexOfAt(up, k, i + 1);
  }

  /** Swapping the same neighbours twice gives the stack back. */
  lemma SwapTwice(ks: seq<PageType>, i: nat)
    requires i + 1 < |ks|
    ensures Swap(Swap(ks, i), i) == ks
  {
    assert Swap(Swap(ks, i), i) == ks;
  }

  /** The first occurrence is where `get_page` finds the class. */
  lemma {:induction false} IndexOfAt(ks: seq<PageType>, k: PageType, j: nat)
    requires j < |ks| && ks[j] == k && k !in ks[..j]
    ensures IndexOf(ks, k) == Ok(j)
  {
    if j > 0 {
      assert ks[0] == ks[..j][0];
      assert ks[1..][..j - 1] == ks[..j][1..];
      IndexOfAt(ks[1..], k, j - 1);
    }
  }

  /** `PageNavigation`. */
  datatype NavAction = OpenNav | CloseNav | CloseTopNav | ReplaceTopNav | CloseAllNav | HideNav | ShowNav | MoveDownNav | MoveUpNav

  /** The commands of `page_actions`, which take a page class. */
  predicate TakesPage(a: NavAction)
  {
    a == OpenNav || a == CloseNav || a == ReplaceTopNav
  }

  /** The commands of `global_actions`, which take none. */
  predicate TakesNoPage(a: NavAction)
  {
    a == CloseAllNav || a == CloseTopNav
  }

  /** One `(action, page_name)` of `_navigate`. A non-empty name is resolved
      first (KeyError when it is not registered). A command of
      `page_actions` needs a class and one of `global_actions` needs none;
      anything else raises ValueError. */
  function NavStep(ks: seq<PageType>, action: NavAction, name: Option<string>, registry: seq<PageType>): Result<seq<PageType>>
  {
    var named := name.Some? && name.value != "";
    if named && Resolve(registry, name.value).Err? then Err(KeyError)
    else Dispatch(ks, action, if named then Some(Resolve(registry, name.value).value) else None)
  }

  /** The dispatch on the resolved class (`page_type`), or on its absence. */
  function Dispatch(ks: seq<PageType>, action: NavAction, kind: Option<PageType>): Result<seq<PageType>>
  {
    if kind.Some? && TakesPage(action) then
      match action
      case OpenNav => Ok(Open(ks, kind.value))
      case CloseNav => Ok(Elements.RemoveFirst(ks, kind.value))
      case ReplaceTopNav => Ok(ReplaceTop(ks, kind.value))
    else if kind.None? && action == CloseAllNav then Ok([])
    else if kind.None? && action == CloseTopNav then RemoveTop(ks)
    else Err(ValueError)
  }

  /** `_navigate`: the commands in order; the first error stops the rest and
      leaves the effect of the earlier ones. */
  function Navigated(ks: seq<PageType>, actions: seq<(NavAction, Option<string>)>, registry: seq<PageType>): (Result<()>, seq<PageType>)
  {
    if actions == [] then (Ok(()), ks)
    else
      var (r, before) := Navigated(ks, actions[..|actions| - 1], registry);
      if r.Err? then (r, before)
      else
        var (a, name) := actions[|actions| - 1];
        match NavStep(before, a, name, registry)
        case Err(e) => (Err(e), before)
        case Ok(after) => (Ok(()), after)
  }

  /** An error ends navigation: later commands change nothing. */
  lemma {:induction false} NavigatedStops(ks: seq<PageType>, actions: seq<(NavAction, Option<string>)>, registry: seq<PageType>, j: nat)
    requires j <= |actions| && Navigated(ks, actions[..j], registry).0.Err?
    ensures Navigated(ks, actions, registry) == Navigated(ks, actions[..j], registry)
  {
    if j < |actions| {
      assert actions[..|actions| - 1][..j] == actions[..j];
      NavigatedStops(ks, actions[..|actions| - 1], registry, j);
    } else {
      assert actions[..j] == actions;
    }
  }

  /** A command that does not fit the presence or absence of a page name
      raises ValueError: a page command without a name, a global command with
      a resolvable name, and hiding, showing and moving always. */
  lemma NavigateRejects(ks: seq<PageType>, action: NavAction, name: Option<string>, registry: seq<PageType>)
    ensures var named := name.Some? && name.value != "";
            (!named && !TakesNoPage(action)) ==> NavStep(ks, action, name, registry) == Err(ValueError)
    ensures var named := name.Some? && name.value != "";
            (named && name.value in Names(registry) && !TakesPage(action)) ==> NavStep(ks, action, name, registry) == Err(ValueError)
    ensures var named := name.Some? && name.value != "";
            (named && name.value !in Names(registry)) ==> NavStep(ks, action, name, registry) == Err(KeyError)
  {
  }

  /** With one page per class, navigation keeps one page per class. */
  lemma {:induction false} NavigationKeepsDistinct(ks: seq<PageType>, actions: seq<(NavAction, Option<string>)>, registry: seq<PageType>)
    requires DistinctKinds(ks)
    ensures DistinctKinds(Navigated(ks, actions, registry).1)
  {
    if actions != [] {
      NavigationKeepsDistinct(ks, actions[..|actions| - 1], registry);
      var before := Navigated(ks, actions[..|actions| - 1], registry).1;
      var (a, name) := actions[|actions| - 1];
      NavStepKeepsDistinct(before, a, name, registry);
    }
  }

  lemma NavStepKeepsDistinct(ks: seq<PageType>, action: NavAction, name: Option<string>, registry: seq<PageType>)
    requires DistinctKinds(ks)
    ensures NavStep(ks, action, name, registry).Ok? ==> DistinctKinds(NavStep(ks, action, name, registry).value)
  {
    var named := name.Some? && name.value != "";
    if !(named && Resolve(registry, name.value).Err?) {
      DispatchKeepsDistinct(ks, action, if named then Some(Resolve(registry, name.value).value) else None);
    }
  }

  lemma DispatchKeepsDistinct(ks: seq<PageType>, action: NavAction, kind: Option<PageType>)
    requires DistinctKinds(ks)
    ensures Dispatch(ks, action, kind).Ok? ==> DistinctKinds(Dispatch(ks, action, kind).value)
  {
    if kind.Some? && TakesPage(action) {
      var k := kind.value;
      StackStaysDistinct(ks, k);
      if action == OpenNav {
        assert Dispatch(ks, action, kind) == Ok(Open(ks, k));
      } else if action == CloseNav {
        assert Dispatch(ks, action, kind) == Ok(Elements.RemoveFirst(ks, k));
      } else {
        assert Dispatch(ks, action, kind) == Ok(ReplaceTop(ks, k));
      }
    } else if kind.None? && action == CloseTopNav && ks != [] {
      var top := ks[..|ks| - 1];
      forall a, b | 0 <= a < b < |top|
        ensures top[a] != top[b]
      {
        assert top[a] == ks[a] && top[b] == ks[b];
      }
    }
  }

  /** A message of the game-manager mailbox: its action and whether its
      payload is a `BackendStartPayload`. */
  datatype GameMessage = GameMessage(action: string, startPayload: bool)

  /** One message of `execute_backend_page_callback`, from whether the back
      end runs to whether it runs afterwards and the action handed to a page
      handler, if the running back end has one for it. */
  function BackendStep(running: bool, m: GameMessage, hasHandler: string -> bool): Result<(bool, seq<string>)>
  {
    if !running then
      if m.action != "start" then Err(ValueError)
      else if !m.startPayload then Err(AssertionError)
      else Ok((true, []))
    else if m.action == "stop" then Ok((false, []))
    else if m.action == "start" then Err(ValueError)
    else Ok((true, if hasHandler(m.action) then [m.action] else []))
  }

  /** The drain loop: the outcome, whether the back end runs afterwards, the
      actions handed to handlers, and how many messages were taken from the
      mailbox (an exception leaves the rest there). */
  function Drain(running: bool, msgs: seq<GameMessage>, hasHandler: string -> bool): (Result<()>, bool, seq<string>, nat)
  {
    if msgs == [] then (Ok(()), running, [], 0)
    else
      var (r, run, handled, taken) := Drain(running, msgs[..|msgs| - 1], hasHandler);
      if r.Err? then (r, run, handled, taken)
      else
        match BackendStep(run, msgs[|msgs| - 1], hasHandler)
        case Err(e) => (Err(e), run, handled, taken + 1)
        case Ok((run', out)) => (Ok(()), run', handled + out, taken + 1)
  }

  /** The drain of one more message. */
  lemma DrainStep(running: bool, msgs: seq<GameMessage>, hasHandler: string -> bool, i: nat)
    requires i < |msgs| && Drain(running, msgs[..i], hasHandler).0.Ok?
    ensures var (_, run, handled, taken) := Drain(running, msgs[..i], hasHandler);
            Drain(running, msgs[..i + 1], hasHandler)
              == match BackendStep(run, msgs[i], hasHandler)
                 case Err(e) => (Err(e), run, handled, taken + 1)
                 case Ok((run', out)) => (Ok(()), run', handled + out, taken + 1)
  {
    assert msgs[..i + 1][..i] == msgs[..i];
  }

  /** An error ends the drain: later messages change nothing. */
  lemma {:induction false} DrainStops(running: bool, msgs: seq<GameMessage>, hasHandler: string -> bool, j: nat)
    requires j <= |msgs| && Drain(running, msgs[..j], hasHandler).0.Err?
    ensures Drain(running, msgs, hasHandler) == Drain(running, msgs[..j], hasHandler)
  {
    if j < |msgs| {
      assert msgs[..|msgs| - 1][..j] == msgs[..j];
      DrainStops(running, msgs[..|msgs| - 1], hasHandler, j);
    } else {
      assert msgs[..j] == msgs;
    }
  }

  /** The last "start" or "stop" among the messages: true for a start. */
  function LastSwitch(msgs: seq<GameMessage>): Option<bool>
  {
    if msgs == [] then None
    else if msgs[|msgs| - 1].action == "start" then Some(true)
    else if msgs[|msgs| - 1].action == "stop" then Some(false)
    else LastSwitch(msgs[..|msgs| - 1])
  }

  /** After a drain without error the back end runs exactly when the last
      start/stop message was a start, or, without such a message, when it ran
      before; every handled action is a handled non-start/stop action of the
      batch; and the whole batch was taken. */
  lemma {:induction false} DrainMeaning(running: bool, msgs: seq<GameMessage>, hasHandler: string -> bool)
    ensures var (r, run, handled, taken) := Drain(running, msgs, hasHandler);
            && taken <= |msgs|
            && (r.Ok? ==> taken == |msgs|)
            && (r.Ok? ==> run == (if LastSwitch(msgs).Some? then LastSwitch(msgs).value else running))
            && (forall a :: a in handled ==> a != "start" && a != "stop" && hasHandler(a))
  {
    if msgs != [] {
      DrainMeaning(running, msgs[..|msgs| - 1], hasHandler);
    }
  }

  /** The back-end machine's rules for a single message: without a back end
      only a "start" carrying a start payload is accepted; "stop" shuts a
      running back end down; "start" while running raises ValueError. */
  lemma BackendRules(m: GameMessage, hasHandler: string -> bool)
    ensures m.action != "start" ==> BackendStep(false, m, hasHandler) == Err(ValueError)
    ensures m.action == "start" && !m.startPayload ==> BackendStep(false, m, hasHandler) == Err(AssertionError)
    ensures m.action == "start" && m.startPayload ==> BackendStep(false, m, hasHandler) == Ok((true, []))
    ensures m.action == "stop" ==> BackendStep(true, m, hasHandler) == Ok((false, []))
    ensures m.action == "start" ==> BackendStep(true, m, hasHandler) == Err(ValueError)
  {
  }

  /** The pages an input event reaches: from the top down, stopping after the
      first blocking page. */
  function Audience(stack: seq<Page>): seq<Page>
  {
    if stack == [] then []
    else if stack[|stack| - 1].isBlocking then [stack[|stack| - 1]]
    else [stack[|stack| - 1]] + Audience(stack[..|stack| - 1])
  }

  /** One page further down the walk of `BroadcastEvent`. */
  lemma AudienceStep(stack: seq<Page>, k: nat, pages: seq<Page>)
    requires 0 < k <= |stack| && pages + Audience(stack[..k]) == Audience(stack)
    ensures stack[k - 1].isBlocking ==> pages + [stack[k - 1]] == Audience(stack)
    ensures !stack[k - 1].isBlocking ==> (pages + [stack[k - 1]]) + Audience(stack[..k - 1]) == Audience(stack)
  {
    assert stack[..k][..k - 1] == stack[..k - 1];
    assert Audience(stack[..k]) == [stack[k - 1]] + (if stack[k - 1].isBlocking then [] else Audience(stack[..k - 1]));
  }

  /** `a` is a walk down `stack` from the top: it lists the pages from the
      top down, every page in it but the last lets input through, and the
      last blocks or is the bottom page. */
  predicate WalkDown(stack: seq<Page>, a: seq<Page>)
  {
    && |a| <= |stack|
    && (stack != [] ==> |a| >= 1)
    && (forall i :: 0 <= i < |a| ==> a[i] == stack[|stack| - 1 - i])
    && (forall i :: 0 <= i < |a| - 1 ==> !a[i].isBlocking)
    && (a != [] ==> a[|a| - 1].isBlocking || |a| == |stack|)
  }

  /** The audience of an input event is such a walk. */
  lemma {:induction false} AudienceMeaning(stack: seq<Page>)
    ensures WalkDown(stack, Audience(stack))
  {
    if stack != [] && !stack[|stack| - 1].isBlocking {
      var init := stack[..|stack| - 1];
      AudienceMeaning(init);
      assert stack == init + [stack[|stack| - 1]];
      WalkDownStep(stack[|stack| - 1], init, Audience(init));
    }
  }

  lemma WalkDownStep(top: Page, init: seq<Page>, b: seq<Page>)
    requires WalkDown(init, b) && !top.isBlocking
    ensures WalkDown(init + [top], [top] + b)
  {
    var stack := init + [top];
    var a := [top] + b;
    forall i | 1 <= i < |a|
      ensures a[i] == stack[|stack| - 1 - i]
    {
      assert a[i] == b[i - 1];
    }
  }

  class PageManager {
    var pageStack: seq<Page>
    /** `backend_adapter is not None`. */
    var running: bool

    constructor ()
      ensures pageStack == [] && !running
    {
      pageStack := [];
      running := false;
    }

    ghost function Pages(): set<Page>
      reads this
    {
      set p | p in pageStack
    }

    /** `get_page`: the lowest page of the class with its index, or KeyError. */
    method GetPage(kind: PageType) returns (r: Result<(nat, Page)>)
      ensures IndexOf(Kinds(pageStack), kind).Err? ==> r == Err(KeyError)
      ensures IndexOf(Kinds(pageStack), kind).Ok? ==>
                var i := IndexOf(Kinds(pageStack), kind).value;
                r == Ok((i, pageStack[i]))
    {
      var i := 0;
      while i < |pageStack|
        invariant 0 <= i <= |pageStack|
        invariant kind !in Kinds(pageStack)[..i]
      {
        if pageStack[i].kind == kind {
          return Ok((i, pageStack[i]));
        }
        i := i + 1;
      }
      assert Kinds(pageStack)[..i] == Kinds(pageStack);
      return Err(KeyError);
    }

    /** `open_page`: a class already on the stack changes nothing; otherwise
        a new, visible page of it goes on top. The bindings of a new page are
        the tables that the page's binding scan fills; that scan reads
        attributes that the binding decorators never set, so they are empty. */
    method OpenPage(kind: PageType)
      modifies this`pageStack
      ensures Kinds(pageStack) == Open(old(Kinds(pageStack)), kind)
      ensures kind in old(Kinds(pageStack)) ==> pageStack == old(pageStack)
      ensures kind !in old(Kinds(pageStack)) ==>
                && |pageStack| == |old(pageStack)| + 1
                && pageStack[..|old(pageStack)|] == old(pageStack)
                && fresh(pageStack[|pageStack| - 1])
                && pageStack[|pageStack| - 1].isVisible
                && pageStack[|pageStack| - 1].inputBindings == []
                && pageStack[|pageStack| - 1].callbackBindings == []
    {
      var found := GetPage(kind);
      if found.Err? {
        var elements := new ElementManagers.ElementManager();
        var page := new BasePages.Page(kind, [], [], elements);
        pageStack := pageStack + [page];
        assert pageStack[..|pageStack| - 1] == old(pageStack);
      }
    }

    /** `remove_top_page`: IndexError on an empty stack, otherwise the top
        page goes. */
    method RemoveTopPage() returns (r: Result<()>)
      modifies this`pageStack
      ensures old(pageStack) == [] ==> r == Err(IndexError) && pageStack == []
      ensures old(pageStack) != [] ==> r == Ok(()) && pageStack == old(pageStack)[..|old(pageStack)| - 1]
      ensures RemoveTop(old(Kinds(pageStack))) == (if r.Ok? then Ok(Kinds(pageStack)) else Err(IndexError))
    {
      if pageStack == [] {
        return Err(IndexError);
      }
      pageStack := pageStack[..|pageStack| - 1];
      assert Kinds(old(pageStack))[..|old(pageStack)| - 1] == Kinds(pageStack);
      return Ok(());
    }

    /** `remove_page`: the lowest page of the class goes; a class not on the
        stack changes nothing. */
    method RemovePage(kind: PageType)
      modifies this`pageStack
      ensures Kinds(pageStack) == Elements.RemoveFirst(old(Kinds(pageStack)), kind)
      ensures IndexOf(old(Kinds(pageStack)), kind).Err? ==> pageStack == old(pageStack)
      ensures IndexOf(old(Kinds(pageStack)), kind).Ok? ==>
                var i := IndexOf(old(Kinds(pageStack)), kind).value;
                pageStack == old(pageStack)[..i] + old(pageStack)[i + 1..]
    {
      var found := GetPage(kind);
      if found.Ok? {
        var i := found.value.0;
        RemoveFirstAt(Kinds(pageStack), kind, i);
        KindsRemoveAt(pageStack, i);
        pageStack := pageStack[..i] + pageStack[i + 1..];
      } else {
        assert kind !in Kinds(pageStack);
      }
    }

    /** `replace_top_page`: nothing on an empty stack; otherwise the top page
        goes and the class is opened. */
    method ReplaceTopPage(kind: PageType)
      modifies this`pageStack
      ensures Kinds(pageStack) == ReplaceTop(old(Kinds(pageStack)), kind)
      ensures old(pageStack) == [] ==> pageStack == []
    {
      if pageStack != [] {
        var r := RemoveTopPage();
        OpenPage(kind);
      }
    }

    /** `remove_all_pages`: the top page goes until none is left. */
    method RemoveAllPages()
      modifies this`pageStack
      ensures pageStack == []
    {
      while pageStack != []
        invariant |pageStack| <= |old(pageStack)| && pageStack == old(pageStack)[..|pageStack|]
        decreases |pageStack|
      {
        var r := RemoveTopPage();
      }
    }

    /** `move_up_page`. */
    method MoveUpPage(kind: PageType) returns (r: Result<()>)
      modifies this`pageStack
      ensures MoveUp(old(Kinds(pageStack)), kind).Err? ==> r == Err(KeyError) && pageStack == old(pageStack)
      ensures MoveUp(old(Kinds(pageStack)), kind).Ok? ==> r == Ok(()) && Kinds(pageStack) == MoveUp(old(Kinds(pageStack)), kind).value
      ensures multiset(pageStack) == multiset(old(pageStack))
    {
      var found := GetPage(kind);
      if found.Err? {
        return Err(KeyError);
      }
      var i := found.value.0;
      if i < |pageStack| - 1 {
        SwapPages(pageStack, i);
        pageStack := pageStack[i := pageStack[i + 1]][i + 1 := pageStack[i]];
      }
      return Ok(());
    }

    /** `move_down_page`. */
    method MoveDownPage(kind: PageType) returns (r: Result<()>)
      modifies this`pageStack
      ensures MoveDown(old(Kinds(pageStack)), kind).Err? ==> r == Err(KeyError) && pageStack == old(pageStack)
      ensures MoveDown(old(Kinds(pageStack)), kind).Ok? ==> r == Ok(()) && Kinds(pageStack) == MoveDown(old(Kinds(pageStack)), kind).value
      ensures multiset(pageStack) == multiset(old(pageStack))
    {
      var found := GetPage(kind);
      if found.Err? {
        return Err(KeyError);
      }
      var i := found.value.0;
      if i > 0 {
        SwapPages(pageStack, i - 1);
        pageStack := pageStack[i - 1 := pageStack[i]][i := pageStack[i - 1]];
      }
      return Ok(());
    }

    /** `hide_page` and `show_page`: KeyError for a class not on the stack;
        otherwise its lowest page is hidden or shown. */
    method SetPageVisible(kind: PageType, visible: bool) returns (r: Result<()>)
      modifies Pages()`isVisible
      ensures IndexOf(Kinds(pageStack), kind).Err? ==> r == Err(KeyError)
      ensures IndexOf(Kinds(pageStack), kind).Ok? ==>
                r == Ok(()) && pageStack[IndexOf(Kinds(pageStack), kind).value].isVisible == visible
      ensures IndexOf(Kinds(pageStack), kind).Err? ==> forall p :: p in pageStack ==> p.isVisible == old(p.isVisible)
      ensures IndexOf(Kinds(pageStack), kind).Ok? ==>
                forall p :: p in pageStack && p != pageStack[IndexOf(Kinds(pageStack), kind).value] ==> p.isVisible == old(p.isVisible)
    {
      var found := GetPage(kind);
      if found.Err? {
        return Err(KeyError);
      }
      var page := found.value.1;
      if visible {
        page.Show();
      } else {
        page.Hide();
      }
      return Ok(());
    }

    /** `_navigate`, with the page registry to resolve names in. */
    method Navigate(actions: seq<(NavAction, Option<string>)>, registry: PageRegistry) returns (r: Result<()>)
      modifies this`pageStack
      ensures (r, Kinds(pageStack)) == Navigated(old(Kinds(pageStack)), actions, registry.pages)
    {
      ghost var ks0 := Kinds(pageStack);
      r := Ok(());
      var i := 0;
      while i < |actions|
        invariant 0 <= i <= |actions|
        invariant Navigated(ks0, actions[..i], registry.pages) == (Ok(()), Kinds(pageStack))
      {
        assert actions[..i + 1][..i] == actions[..i];
        var (action, name) := actions[i];
        var step := NavigateOnce(action, name, registry);
        if step.Err? {
          r := Err(step.error);
          assert Navigated(ks0, actions[..i + 1], registry.pages) == (r, Kinds(pageStack));
          NavigatedStops(ks0, actions, registry.pages, i + 1);
          return;
        }
        i := i + 1;
      }
      assert actions[..i] == actions;
    }

    /** One `(action, page_name)` of `_navigate`; an error leaves the stack
        as it was. */
    method NavigateOnce(action: NavAction, name: Option<string>, registry: PageRegistry) returns (r: Result<()>)
      modifies this`pageStack
      ensures r.Ok? ==> NavStep(old(Kinds(pageStack)), action, name, registry.pages) == Ok(Kinds(pageStack))
      ensures r.Err? ==> NavStep(old(Kinds(pageStack)), action, name, registry.pages) == Err(r.error) && pageStack == old(pageStack)
    {
      var kind: Option<PageType> := None;
      if name.Some? && name.value != "" {
        var resolved := registry.ResolvePage(name.value);
        if resolved.Err? {
          return Err(KeyError);
        }
        kind := Some(resolved.value);
      }
      r := ApplyNavigation(action, kind);
    }

    /** The dispatch of `_navigate` once the class is resolved. */
    method ApplyNavigation(action: NavAction, kind: Option<PageType>) returns (r: Result<()>)
      modifies this`pageStack
      ensures r.Ok? ==> Dispatch(old(Kinds(pageStack)), action, kind) == Ok(Kinds(pageStack))
      ensures r.Err? ==> Dispatch(old(Kinds(pageStack)), action, kind) == Err(r.error) && pageStack == old(pageStack)
    {
      if kind.Some? && TakesPage(action) {
        NavigateToPage(action, kind.value);
        r := Ok(());
      } else if kind.None? && action == CloseAllNav {
        RemoveAllPages();
        r := Ok(());
      } else if kind.None? && action == CloseTopNav {
        r := RemoveTopPage();
      } else {
        r := Err(ValueError);
      }
    }

    /** The commands that name a page class: open, close or replace the top
        with it. */
    method NavigateToPage(action: NavAction, kind: PageType)
      requires TakesPage(action)
      modifies this`pageStack
      ensures Dispatch(old(Kinds(pageStack)), action, Some(kind)) == Ok(Kinds(pageStack))
    {
      match action {
        case OpenNav => OpenPage(kind);
        case CloseNav => RemovePage(kind);
        case ReplaceTopNav => ReplaceTopPage(kind);
      }
    }

    /** `execute_backend_page_callback`: drains the mailbox through the
        back-end machine, then lets a running back end run its own callbacks
        (`backendCalled`). Whether the back end has a page handler for an
        action is the parameter `hasHandler`. */
    method ExecuteBackendPageCallback(msgs: seq<GameMessage>, hasHandler: string -> bool)
      returns (r: Result<()>, handled: seq<string>, taken: nat, backendCalled: bool)
      modifies this`running
      ensures (r, running, handled, taken) == Drain(old(running), msgs, hasHandler)
      ensures backendCalled <==> r.Ok? && running
    {
      handled := [];
      taken := 0;
      r := Ok(());
      var i := 0;
      while i < |msgs|
        invariant 0 <= i <= |msgs|
        invariant Drain(old(running), msgs[..i], hasHandler) == (Ok(()), running, handled, taken)
      {
        DrainStep(old(running), msgs, hasHandler, i);
        var m := msgs[i];
        assert handled + [] == handled;
        taken := taken + 1;
        if !running {
          if m.action != "start" {
            r := Err(ValueError);
            break;
          }
          if !m.startPayload {
            r := Err(AssertionError);
            break;
          }
          running := true;
        } else if m.action == "stop" {
          running := false;
        } else if m.action == "start" {
          r := Err(ValueError);
          break;
        } else if hasHandler(m.action) {
          handled := handled + [m.action];
        }
        i := i + 1;
      }
      if r.Err? {
        DrainStops(old(running), msgs, hasHandler, i + 1);
        return r, handled, taken, false;
      }
      assert msgs[..i] == msgs;
      return Ok(()), handled, taken, running;
    }

    /** `_broadcast_input`: each event goes to the pages from the top down,
        stopping after the first blocking page. Returns, per event, the pages
        it reached. */
    method BroadcastInput(events: seq<(Option<string>, int)>) returns (reached: seq<seq<Page>>)
      ensures |reached| == |events|
      ensures forall i :: 0 <= i < |events| ==> reached[i] == Audience(pageStack)
    {
      reached := [];
      var e := 0;
      while e < |events|
        invariant 0 <= e <= |events|
        invariant |reached| == e && forall i :: 0 <= i < e ==> reached[i] == Audience(pageStack)
      {
        var pages := BroadcastEvent(events[e]);
        reached := reached + [pages];
        e := e + 1;
      }
    }

    /** One event of `_broadcast_input`, from the top page down. */
    method BroadcastEvent(event: (Option<string>, int)) returns (pages: seq<Page>)
      ensures pages == Audience(pageStack)
    {
      pages := [];
      var k := |pageStack|;
      assert pageStack[..k] == pageStack;
      while k > 0
        invariant 0 <= k <= |pageStack|
        invariant pages + Audience(pageStack[..k]) == Audience(pageStack)
      {
        var page := pageStack[k - 1];
        AudienceStep(pageStack, k, pages);
        var executed, ran := page.ExecuteInputCallback(event.0, event.1);
        pages := pages + [page];
        if page.isBlocking {
          break;
        }
        k := k - 1;
      }
      if k == 0 {
        assert pages + [] == pages;
      }
    }

    /** `_delegate`: every page, bottom to top, runs its handlers for the
        callback action. */
    method Delegate(action: string) returns (ran: seq<seq<string>>)
      ensures |ran| == |pageStack|
      ensures forall i :: 0 <= i < |pageStack| ==> ran[i] == BasePages.Bound(pageStack[i].callbackBindings, action)
    {
      ran := [];
      var i := 0;
      while i < |pageStack|
        invariant 0 <= i <= |pageStack|
        invariant |ran| == i && forall j :: 0 <= j < i ==> ran[j] == BasePages.Bound(pageStack[j].callbackBindings, action)
      {
        var executed, handlers := pageStack[i].ExecutePageCallback(action);
        ran := ran + [handlers];
        i := i + 1;
      }
    }
  }

  /** `list.pop(i)` on the classes is the removal of the first page of the
      class, when i is its index. */
  lemma {:induction false} RemoveFirstAt(ks: seq<PageType>, k: PageType, i: nat)
    requires i < |ks| && ks[i] == k && k !in ks[..i]
    ensures Elements.RemoveFirst(ks, k) == ks[..i] + ks[i + 1..]
  {
    if i > 0 {
      assert ks[0] != k by {
        assert ks[..i][0] == ks[0];
      }
      assert ks[1..][..i - 1] == ks[..i][1..];
      RemoveFirstAt(ks[1..], k, i - 1);
      assert ks[..i] == [ks[0]] + ks[1..][..i - 1];
    }
  }

  /** Dropping the page at an index drops its class. */
  lemma KindsRemoveAt(stack: seq<Page>, i: nat)
    requires i < |stack|
    ensures Kinds(stack[..i] + stack[i + 1..]) == Kinds(stack)[..i] + Kinds(stack)[i + 1..]
  {
    var a := Kinds(stack[..i] + stack[i + 1..]);
    var b := Kinds(stack)[..i] + Kinds(stack)[i + 1..];
    assert |a| == |b|;
    forall j | 0 <= j < |a|
      ensures a[j] == b[j]
    {
      if j < i {
        assert b[j] == Kinds(stack)[j];
      } else {
        assert b[j] == Kinds(stack)[j + 1];
      }
    }
  }

  /** Swapping two neighbouring pages swaps their classes and keeps the
      pages. */
  lemma SwapPages(stack: seq<Page>, i: nat)
    requires i + 1 < |stack|
    ensures Kinds(stack[i := stack[i + 1]][i + 1 := stack[i]]) == Swap(Kinds(stack), i)
    ensures multiset(stack[i := stack[i + 1]][i + 1 := stack[i]]) == multiset(stack)
  {
    var s := stack[i := stack[i + 1]][i + 1 := stack[i]];
    assert s == stack[..i] + [stack[i + 1], stack[i]] + stack[i + 2..];
    assert stack == stack[..i] + [stack[i], stack[i + 1]] + stack[i + 2..];
  }
}
