/**
 * Identifiers of stored documents. A request carries an identifier as text; the
 * ObjectId constructor accepts exactly 24 hexadecimal digits, in either case, and
 * the stored form is the lower-case one. Any other text makes the constructor throw.
 */
module ObjectIds {
  import opened Wrappers

  /** A stored identifier: always in canonical form (see IsCanonical). */
  type Id = string

  predicate IsHexDigit(c: char) {
    '0' <= c <= '9' || 'a' <= c <= 'f' || 'A' <= c <= 'F'
  }

  predicate IsLowerHexDigit(c: char) {
    '0' <= c <= '9' || 'a' <= c <= 'f'
  }

  /** Text the ObjectId constructor accepts. */
  predicate ValidId(s: string) {
    |s| == 24 && forall i | 0 <= i < |s| :: IsHexDigit(s[i])
  }

  /** The form in which an identifier is stored and compared. */
  predicate IsCanonical(s: string) {
    |s| == 24 && forall i | 0 <= i < |s| :: IsLowerHexDigit(s[i])
  }

  predicate AllValid(raw: seq<string>) {
    forall i | 0 <= i < |raw| :: ValidId(raw[i])
  }

  predicate AllCanonical(ids: seq<Id>) {
    forall i | 0 <= i < |ids| :: IsCanonical(ids[i])
  }

  function LowerDigit(c: char): (d: char)
    requires IsHexDigit(c)
    ensures IsLowerHexDigit(d)
    ensures IsLowerHexDigit(c) ==> d == c
    ensures 'A' <= c <= 'F' ==> d as int == c as int + 32
  {
    if 'A' <= c <= 'F' then (c as int + 32) as char else c
  }

  /** Converts request text to a stored identifier; None where the constructor throws. */
  function ParseId(s: string): (r: Option<Id>)
    ensures r.Some? <==> ValidId(s)
    ensures r.Some? ==> IsCanonical(r.value) && |r.value| == |s|
    ensures r.Some? ==> forall i | 0 <= i < |s| :: r.value[i] == LowerDigit(s[i])
    ensures IsCanonical(s) ==> r == Some(s)
  {
    if ValidId(s) then
      var lowered := seq(|s|, i requires 0 <= i < |s| => LowerDigit(s[i]));
      assert IsCanonical(s) ==> lowered == s;
      Some(lowered)
    else None
  }

  /** Converts a whole list of identifiers, as the schema casts an id array. */
  function ParseAll(raw: seq<string>): (ids: seq<Id>)
    requires AllValid(raw)
    ensures |ids| == |raw| && AllCanonical(ids)
    ensures forall i | 0 <= i < |raw| :: Some(ids[i]) == ParseId(raw[i])
  {
    seq(|raw|, i requires 0 <= i < |raw| => ParseId(raw[i]).value)
  }
}
