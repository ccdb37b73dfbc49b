/** The two playing sides (side.py). `Option<Side>` stands for `Side | None`. */
module Sides {
  import opened Wrappers

  datatype Side = Rat | Mouse

  /** The opposing side; an involution without fixed point. */
  function OtherSide(s: Side): (r: Side)
    ensures r != s
  {
    match s
    case Rat => Mouse
    case Mouse => Rat
  }

  /** `Side.from_int`: 0 is no side, 1 and 2 are the enum values; anything else
      makes the Enum constructor raise ValueError. */
  function FromInt(v: int): (r: Result<Option<Side>>)
    ensures r.Ok? <==> 0 <= v <= 2
    ensures r == Ok(None) <==> v == 0
  {
    if v == 0 then Ok(None)
    else if v == 1 then Ok(Some(Rat))
    else if v == 2 then Ok(Some(Mouse))
    else Err(ValueError)
  }

  /** `Side.to_int`: None is 0, otherwise the enum value (RAT = 1, MOUSE = 2). */
  function ToInt(s: Option<Side>): (r: int)
    ensures 0 <= r <= 2
    ensures r == 0 <==> s.None?
  {
    match s
    case None => 0
    case Some(Rat) => 1
    case Some(Mouse) => 2
  }

  lemma OtherSideInvolution(s: Side)
    ensures OtherSide(OtherSide(s)) == s
  {
  }

  /** Every integer the enum accepts survives the round trip through Side. */
  lemma IntRoundTrip(v: int)
    requires 0 <= v <= 2
    ensures FromInt(v).Ok? && ToInt(FromInt(v).value) == v
  {
  }

  lemma SideRoundTrip(s: Option<Side>)
    ensures FromInt(ToInt(s)) == Ok(s)
  {
  }
}
