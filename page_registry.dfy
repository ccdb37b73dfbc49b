/** The page registry (frontend/pages/page_managers/page_registry.py): page
    classes registered by class name, resolved by name, listed in registration
    order. A page class is modelled by its name and whether its pages block
    input to the pages below them. */
module PageRegistries {
  import opened Wrappers

  datatype PageType = PageType(name: string, blocking: bool)

  /** The registered names, in registration order. */
  function Names(ps: seq<PageType>): (ns: seq<string>)
    ensures |ns| == |ps|
    ensures forall i :: 0 <= i < |ps| ==> ns[i] == ps[i].name
  {
    if ps == [] then [] else Names(ps[..|ps| - 1]) + [ps[|ps| - 1].name]
  }

  predicate Distinct(ns: seq<string>)
  {
    forall i, j :: 0 <= i < j < |ns| ==> ns[i] != ns[j]
  }

  /** `resolve_page`: the class registered under the name, or KeyError. */
  function Resolve(ps: seq<PageType>, name: string): (r: Result<PageType>)
    ensures r.Ok? <==> name in Names(ps)
    ensures r.Ok? ==> r.value in ps && r.value.name == name
    ensures r.Err? ==> r.error == KeyError
  {
    if ps == [] then Err(KeyError)
    else if ps[|ps| - 1].name == name && name !in Names(ps[..|ps| - 1]) then Ok(ps[|ps| - 1])
    else
      var r := Resolve(ps[..|ps| - 1], name);
      assert Names(ps) == Names(ps[..|ps| - 1]) + [ps[|ps| - 1].name];
      r
  }

  /** `register_page`: ValueError when the name is already taken, otherwise
      the class is added under its name. */
  function Register(ps: seq<PageType>, cls: PageType): Result<seq<PageType>>
  {
    if cls.name in Names(ps) then Err(ValueError) else Ok(ps + [cls])
  }

  /** Registration keeps the names distinct, lists the new name last, and
      afterwards the name resolves to the class while every other name
      resolves as before; a taken name raises ValueError. */
  lemma {:induction false} RegisterThenResolve(ps: seq<PageType>, cls: PageType, name: string)
    requires Distinct(Names(ps))
    ensures Register(ps, cls).Err? <==> cls.name in Names(ps)
    ensures Register(ps, cls).Err? ==> Register(ps, cls).error == ValueError
    ensures Register(ps, cls).Ok? ==>
              && Distinct(Names(Register(ps, cls).value))
              && Names(Register(ps, cls).value) == Names(ps) + [cls.name]
              && Resolve(Register(ps, cls).value, name) == (if name == cls.name then Ok(cls) else Resolve(ps, name))
  {
    if cls.name !in Names(ps) {
      var qs := ps + [cls];
      assert qs[..|qs| - 1] == ps;
      assert Names(qs) == Names(ps) + [cls.name];
      if name != cls.name {
        ResolveSame(qs, name);
      }
    }
  }

  /** Resolving in a registry with one more class at the end, under another
      name, gives the same answer. */
  lemma ResolveSame(qs: seq<PageType>, name: string)
    requires |qs| > 0 && qs[|qs| - 1].name != name
    ensures Resolve(qs, name) == Resolve(qs[..|qs| - 1], name)
  {
  }

  class PageRegistry {
    /** `_PAGE_REGISTRY`, as its values in insertion order. */
    var pages: seq<PageType>

    predicate Valid()
      reads this
    {
      Distinct(Names(pages))
    }

    constructor ()
      ensures Valid() && pages == []
    {
      pages := [];
    }

    /** `register_page`: returns the class unchanged. */
    method RegisterPage(cls: PageType) returns (r: Result<PageType>)
      requires Valid()
      modifies this
      ensures Valid()
      ensures Register(old(pages), cls).Ok? ==> r == Ok(cls) && pages == Register(old(pages), cls).value
      ensures Register(old(pages), cls).Err? ==> r == Err(ValueError) && pages == old(pages)
    {
      RegisterThenResolve(pages, cls, cls.name);
      if cls.name in Names(pages) {
        return Err(ValueError);
      }
      pages := pages + [cls];
      return Ok(cls);
    }

    /** `resolve_page`. */
    function ResolvePage(name: string): (r: Result<PageType>)
      reads this
      ensures r.Ok? <==> name in Names(pages)
      ensures r.Ok? ==> r.value in pages && r.value.name == name
    {
      Resolve(pages, name)
    }

    /** `all_pages`: the registered names, each once. */
    function AllPages(): (r: seq<string>)
      reads this
      requires Valid()
      ensures Distinct(r)
      ensures forall p :: p in pages ==> p.name in r
      ensures forall n :: n in r ==> Resolve(pages, n).Ok?
    {
      Names(pages)
    }
  }
}
