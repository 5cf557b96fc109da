/** Package `effect`: the effect kinds a timeline step can request, parsed from
    their API names and printed through the stringer-generated name table. */
module Effect {
  import Strings
  import Strconv

  /** Go's `type EffectType int`. */
  type EffectType = int

  const Unknown: EffectType := 0
  const Solid: EffectType := 1
  const Fade: EffectType := 2
  const Gradient: EffectType := 3
  const Sequence: EffectType := 4
  const Rainbow: EffectType := 5
  const Zip: EffectType := 6
  const KnightRider: EffectType := 7
  const Lightning: EffectType := 8

  /** `effect.FromString`: the lower-cased input is matched against the eight
      effect names; anything else is `Unknown`. */
  function FromString(stringtype: string): (r: EffectType)
    ensures Unknown <= r <= Lightning
  {
    var s := Strings.ToLower(stringtype);
    if s == "solid" then Solid
    else if s == "fade" then Fade
    else if s == "gradient" then Gradient
    else if s == "sequence" then Sequence
    else if s == "rainbow" then Rainbow
    else if s == "zip" then Zip
    else if s == "knightrider" then KnightRider
    else if s == "lightning" then Lightning
    else Unknown
  }

  /** The lower-case names matched by Solid .. Lightning, in that order. */
  const MatchNames: seq<string> :=
    ["solid", "fade", "gradient", "sequence", "rainbow", "zip", "knightrider", "lightning"]

  /** `FromString` yields a known effect exactly when the lower-cased input is
      that effect's name, and `Unknown` exactly when it is none of them. */
  lemma FromStringMatches(s: string, e: EffectType)
    requires Solid <= e <= Lightning
    ensures FromString(s) == e <==> Strings.ToLower(s) == MatchNames[e - 1]
    ensures FromString(s) == Unknown <==> Strings.ToLower(s) !in MatchNames
  {
  }

  /** Matching ignores letter case. */
  lemma FromStringIgnoresCase(s: string, t: string)
    requires Strings.EqualFold(s, t)
    ensures FromString(s) == FromString(t)
  {
    Strings.ToLowerEqualFold(s, t);
  }

  /** Strings that are not effect names, including near misses, are `Unknown`. */
  lemma FromStringRejects()
    ensures FromString("") == Unknown
    ensures FromString("unknown") == Unknown
    ensures FromString("knight-rider") == Unknown
    ensures FromString("KnightRider") == KnightRider
  {
    assert Strings.ToLower("knight-rider") == "knight-rider";
    assert Strings.ToLower("unknown") == "unknown";
    assert Strings.ToLower("KnightRider") == "knightrider";
  }

  /** Go's Unicode lower-casing lets two non-ASCII capitals through: the dotted
      capital I and the Kelvin sign. */
  lemma FromStringUnicodeCase()
    ensures FromString("SOL\U{130}D") == Solid
    ensures FromString("\U{212A}nightrider") == KnightRider
  {
    assert Strings.ToLower("SOL\U{130}D") == "solid";
    assert Strings.ToLower("\U{212A}nightrider") == "knightrider";
  }

  /** `_EffectType_name` and `_EffectType_index` of the generated file: the nine
      names run together in one 62-character string (written here as their
      concatenation), and the offsets that cut it. */
  const NameTable: string := "Unknown" + "Solid" + "Fade" + "Gradient" + "Sequence" + "Rainbow" + "Zip" + "KnightRider" + "Lightning"
  const IndexTable: seq<int> := [0, 7, 12, 16, 24, 32, 39, 42, 53, 62]

  /** The index table cuts the name table into nine in-bounds, non-empty slices. */
  lemma IndexTableWellFormed()
    ensures |IndexTable| == 10 && IndexTable[0] == 0 && IndexTable[9] == |NameTable|
    ensures forall k :: 0 <= k < 9 ==> IndexTable[k] < IndexTable[k + 1]
  {
  }

  /** `EffectType.String`: a slice of the name table for 0..8, else
      "EffectType(" + decimal + ")". */
  function String(i: EffectType): (r: string)
    ensures Unknown <= i <= Lightning ==> |r| <= 11
    ensures !(Unknown <= i <= Lightning) ==> |r| >= 13
  {
    IndexTableWellFormed();
    if i < 0 || i >= |IndexTable| - 1 then "EffectType(" + Strconv.FormatInt(i) + ")"
    else NameTable[IndexTable[i]..IndexTable[i + 1]]
  }

  /** The index table cuts the name table at the nine names. */
  lemma NameSlices()
    ensures NameTable[0..7] == "Unknown" && NameTable[7..12] == "Solid" && NameTable[12..16] == "Fade"
    ensures NameTable[16..24] == "Gradient" && NameTable[24..32] == "Sequence" && NameTable[32..39] == "Rainbow"
    ensures NameTable[39..42] == "Zip" && NameTable[42..53] == "KnightRider" && NameTable[53..62] == "Lightning"
  {
    assert NameTable == ("Unknown" + "Solid" + "Fade" + "Gradient" + "Sequence" + "Rainbow" + "Zip" + "KnightRider") + "Lightning";
  }

  /** The name each constant prints as; this pins Unknown = 0 ... Lightning = 8,
      as the generated compile-time guard does. */
  lemma StringOfConstants()
    ensures String(Unknown) == "Unknown" && String(Solid) == "Solid"
    ensures String(Fade) == "Fade" && String(Gradient) == "Gradient"
    ensures String(Sequence) == "Sequence" && String(Rainbow) == "Rainbow"
    ensures String(Zip) == "Zip" && String(KnightRider) == "KnightRider"
    ensures String(Lightning) == "Lightning"
  {
    NameSlices();
    assert String(Unknown) == NameTable[0..7];
    assert String(Solid) == NameTable[7..12];
    assert String(Fade) == NameTable[12..16];
    assert String(Gradient) == NameTable[16..24];
    assert String(Sequence) == NameTable[24..32];
    assert String(Rainbow) == NameTable[32..39];
    assert String(Zip) == NameTable[39..42];
    assert String(KnightRider) == NameTable[42..53];
    assert String(Lightning) == NameTable[53..62];
  }

  /** Outside 0..8 the printed form is the decimal value in parentheses, and the
      value can be read back from it. */
  lemma StringOutOfRange(i: EffectType)
    requires !(Unknown <= i <= Lightning)
    ensures var d := String(i)[11..|String(i)| - 1];
      String(i) == "EffectType(" + d + ")" && |d| >= 1 && Strconv.ParseInt(d) == i
  {
    var d := Strconv.FormatInt(i);
    Strconv.ParseFormatInt(i);
    assert String(i)[11..|String(i)| - 1] == d;
  }

  /** No two effect values print alike. */
  lemma StringInjective(i: EffectType, j: EffectType)
    requires String(i) == String(j)
    ensures i == j
  {
    var inI, inJ := Unknown <= i <= Lightning, Unknown <= j <= Lightning;
    if inI && inJ {
      FromStringOfString(i);
      FromStringOfString(j);
    } else if !inI && !inJ {
      StringOutOfRange(i);
      StringOutOfRange(j);
    }
  }

  /** Printing and parsing round-trip every effect; `Unknown` survives because
      "unknown" matches no case. */
  lemma FromStringOfString(e: EffectType)
    requires Unknown <= e <= Lightning
    ensures FromString(String(e)) == e
  {
    StringOfConstants();
    NamesLowered();
  }

  /** The printed names, lower-cased. */
  lemma NamesLowered()
    ensures Strings.ToLower("Unknown") == "unknown" && Strings.ToLower("Solid") == "solid"
    ensures Strings.ToLower("Fade") == "fade" && Strings.ToLower("Gradient") == "gradient"
    ensures Strings.ToLower("Sequence") == "sequence" && Strings.ToLower("Rainbow") == "rainbow"
    ensures Strings.ToLower("Zip") == "zip" && Strings.ToLower("KnightRider") == "knightrider"
    ensures Strings.ToLower("Lightning") == "lightning"
  {
    LongNamesLowered();
  }

  /** The three longest printed names, lower-cased. */
  lemma LongNamesLowered()
    ensures Strings.ToLower("Sequence") == "sequence" && Strings.ToLower("KnightRider") == "knightrider"
    ensures Strings.ToLower("Lightning") == "lightning"
  {
  }
}
