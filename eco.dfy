/**
 * The five volumes of the Encyclopaedia of Chess Openings.  The source
 * declares them as an enumeration whose members are also strings: each
 * member's value is its description, and `ECOVolume[name]` looks a member up
 * by its name ("A" to "E").
 */
module Eco {
  import opened Wrappers

  datatype ECOVolume = A | B | C | D | E

  /** The member's name, the letter an ECO code starts with. */
  function MemberName(v: ECOVolume): string
  {
    match v
    case A => "A"
    case B => "B"
    case C => "C"
    case D => "D"
    case E => "E"
  }

  /** What the volume covers. */
  function VolumeTitle(v: ECOVolume): string
  {
    match v
    case A => "Flank openings"
    case B => "Semi-Open Games other than the French Defense"
    case C => "Open Games and the French Defense"
    case D => "Closed Games and Semi-Closed Games"
    case E => "Indian Defenses"
  }

  /**
   * The member's value, the string the member is equal to, for example
   * "Volume A: Flank openings": the volume's name, then what it covers.
   */
  function Description(v: ECOVolume): (d: string)
    ensures |d| == 10 + |VolumeTitle(v)|
    ensures d[..7] == "Volume " && d[7..8] == MemberName(v) && d[8..10] == ": " && d[10..] == VolumeTitle(v)
  {
    "Volume " + MemberName(v) + ": " + VolumeTitle(v)
  }

  /** `ECOVolume[name]`: a member by name, or nothing (Python raises `KeyError`). */
  function Lookup(name: string): (r: Option<ECOVolume>)
    ensures r.Some? <==> name in {"A", "B", "C", "D", "E"}
    ensures r.Some? ==> MemberName(r.value) == name
  {
    if name == "A" then Some(A)
    else if name == "B" then Some(B)
    else if name == "C" then Some(C)
    else if name == "D" then Some(D)
    else if name == "E" then Some(E)
    else None
  }

  /** Looking a member up by its own name finds it. */
  lemma LookupMemberName(v: ECOVolume)
    ensures Lookup(MemberName(v)) == Some(v)
  {
  }

  /**
   * The volume filter of the registry listing: no filter selects every group;
   * a member selects the group whose key string equals the member, that is,
   * equals the member's description.
   */
  predicate Selects(filter: Option<ECOVolume>, key: string)
  {
    filter.None? || key == Description(filter.value)
  }

  /**
   * Every description is longer than one character, so a member never equals
   * a one-letter group key: a volume filter selects no group at all.
   */
  lemma FilterSelectsNoLetter(v: ECOVolume, c: char)
    ensures !Selects(Some(v), [c])
  {
    assert |Description(v)| > 1;
  }
}
