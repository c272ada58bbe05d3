/** Conversion between instruction-set names and the ISA enumeration
    (lib/utils/isa_to_string.c and lib/utils/string_to_isa.c). */
module IsaNames {
  import opened Status

  /** enum armvm_ISA: three architectures and the "undefined" sentinel. */
  datatype Isa = ARMV6_M | ARMV7_M | ARMV8_M | UNDEFINED_ISA

  /** Size of the buffer string_to_isa normalises into (STR_SIZE). */
  const STR_SIZE: nat := 15

  /** A C string: it cannot hold the terminating NUL character. */
  predicate IsCString(s: string) {
    forall i :: 0 <= i < |s| ==> s[i] != '\0'
  }

  /** isa_to_string: the display name of a defined ISA, NULL (None) otherwise. */
  function IsaToString(isa: Isa): (name: Option<string>)
    ensures name.Some? <==> isa != UNDEFINED_ISA
    ensures isa == ARMV6_M ==> name == Some("Armv6-M")
    ensures isa == ARMV7_M ==> name == Some("Armv7-M")
    ensures isa == ARMV8_M ==> name == Some("Armv8-M")
  {
    match isa
    case ARMV6_M => Some("Armv6-M")
    case ARMV7_M => Some("Armv7-M")
    case ARMV8_M => Some("Armv8-M")
    case UNDEFINED_ISA => None
  }

  /** tolower() in the C locale. */
  function ToLower(c: char): char {
    if 'A' <= c <= 'Z' then (c as int + 32) as char else c
  }

  /** toupper() in the C locale. */
  function ToUpper(c: char): char {
    if 'a' <= c <= 'z' then (c as int - 32) as char else c
  }

  /** One character of the normalised name: lower case, '_' read as '-'. */
  function NormalizeChar(c: char): char {
    var l := ToLower(c);
    if l == '_' then '-' else l
  }

  /** The whole input, character by character, as string_to_isa's buffer holds it. */
  function Normalize(s: string): string {
    seq(|s|, i requires 0 <= i < |s| => NormalizeChar(s[i]))
  }

  /** What string_to_isa returns for a C string: too long, or no exact match
      of the normalised text, gives the sentinel. */
  function ParseIsa(s: string): Isa {
    if STR_SIZE <= |s| then UNDEFINED_ISA
    else
      var n := Normalize(s);
      if n == "armv6-m" then ARMV6_M
      else if n == "armv7-m" then ARMV7_M
      else if n == "armv8-m" then ARMV8_M
      else UNDEFINED_ISA
  }

  /** string_to_isa: rejects long input, fills the normalisation buffer one
      character at a time, then compares against the three known names. */
  method StringToIsa(s: string) returns (isa: Isa)
    requires IsCString(s)
    ensures isa == ParseIsa(s)
    ensures |s| >= STR_SIZE ==> isa == UNDEFINED_ISA
  {
    if STR_SIZE <= |s| {
      return UNDEFINED_ISA;
    }
    var buf: string := [];
    var i := 0;
    while i < |s|
      invariant 0 <= i <= |s|
      invariant |buf| == i
      invariant forall k :: 0 <= k < i ==> buf[k] == NormalizeChar(s[k])
    {
      var c := ToLower(s[i]);
      if c == '_' {
        c := '-';
      }
      buf := buf + [c];
      i := i + 1;
    }
    assert buf == Normalize(s);
    if buf == "armv6-m" {
      isa := ARMV6_M;
    } else if buf == "armv7-m" {
      isa := ARMV7_M;
    } else if buf == "armv8-m" {
      isa := ARMV8_M;
    } else {
      isa := UNDEFINED_ISA;
    }
  }

  /** The lower-case spelling of a name a defined ISA is parsed from. */
  function CanonicalName(isa: Isa): string
    requires isa != UNDEFINED_ISA
  {
    match isa
    case ARMV6_M => "armv6-m"
    case ARMV7_M => "armv7-m"
    case ARMV8_M => "armv8-m"
  }

  /** Normalising twice is normalising once. */
  lemma {:induction false} NormalizeIdempotent(s: string)
    ensures Normalize(Normalize(s)) == Normalize(s)
  {
    var n := Normalize(s);
    forall i | 0 <= i < |s|
      ensures Normalize(n)[i] == n[i]
    {
      var c := s[i];
      assert n[i] == NormalizeChar(c);
      assert NormalizeChar(NormalizeChar(c)) == NormalizeChar(c);
    }
  }

  /** Matching is case-insensitive and reads '_' as '-': the parse depends
      only on the normalised text. */
  lemma NormalizedInputParsesAlike(s: string, t: string)
    requires Normalize(s) == Normalize(t)
    ensures ParseIsa(s) == ParseIsa(t)
  {
    assert |s| == |Normalize(s)| == |Normalize(t)| == |t|;
  }

  /** Exactly three normalised names are accepted; every other string is the sentinel. */
  lemma ParseIsaCharacterization(s: string, isa: Isa)
    requires isa != UNDEFINED_ISA
    ensures ParseIsa(s) == isa <==> Normalize(s) == CanonicalName(isa)
    ensures ParseIsa(s) == UNDEFINED_ISA <==>
      Normalize(s) !in {"armv6-m", "armv7-m", "armv8-m"}
  {
    assert |Normalize(s)| == |s|;
  }

  /** The upper-case spelling the round-trip test builds: toupper() on each character. */
  function UpperSpelling(s: string): string {
    seq(|s|, i requires 0 <= i < |s| => ToUpper(s[i]))
  }

  /** The lower-case spelling the round-trip test builds: tolower() with '-' written as '_'. */
  function LowerUnderscoreSpelling(s: string): string {
    seq(|s|, i requires 0 <= i < |s| => if s[i] == '-' then '_' else ToLower(s[i]))
  }

  /** Round trip: every defined ISA's name parses back to it, and so do its
      lower-case/underscore and upper-case spellings. */
  lemma {:induction false} NameRoundTrip(isa: Isa)
    requires isa != UNDEFINED_ISA
    ensures IsaToString(isa).Some?
    ensures ParseIsa(IsaToString(isa).value) == isa
    ensures ParseIsa(LowerUnderscoreSpelling(IsaToString(isa).value)) == isa
    ensures ParseIsa(UpperSpelling(IsaToString(isa).value)) == isa
  {
    var name := IsaToString(isa).value;
    var canon := CanonicalName(isa);
    assert Normalize(name) == canon;
    assert Normalize(LowerUnderscoreSpelling(name)) == canon;
    assert Normalize(UpperSpelling(name)) == canon;
  }
}
