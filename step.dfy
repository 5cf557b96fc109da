/** Package `step`: the kinds of timeline step, parsed from their API names. */
module Step {
  import Strings
  import Strconv

  /** Go's `type StepType int`. */
  type StepType = int

  const Unknown: StepType := 0
  const Effect: StepType := 1
  const Sleep: StepType := 2
  const RandomSleep: StepType := 3
  const Trigger: StepType := 4
  const Loop: StepType := 5

  /** `step.FromString`: the lower-cased input is matched against the five step
      names; anything else is `Unknown`. */
  function FromString(stringtype: string): (r: StepType)
    ensures Unknown <= r <= Loop
  {
    var s := Strings.ToLower(stringtype);
    if s == "effect" then Effect
    else if s == "sleep" then Sleep
    else if s == "randomsleep" then RandomSleep
    else if s == "trigger" then Trigger
    else if s == "loop" then Loop
    else Unknown
  }

  /** The lower-case names matched by Effect .. Loop, in that order. */
  const MatchNames: seq<string> := ["effect", "sleep", "randomsleep", "trigger", "loop"]

  /** `FromString` yields a known step type exactly when the lower-cased input is
      that type's name, and `Unknown` exactly when it is none of them. */
  lemma FromStringMatches(s: string, t: StepType)
    requires Effect <= t <= Loop
    ensures FromString(s) == t <==> Strings.ToLower(s) == MatchNames[t - 1]
    ensures FromString(s) == Unknown <==> Strings.ToLower(s) !in MatchNames
  {
  }

  /** Matching ignores letter case. */
  lemma FromStringIgnoresCase(s: string, t: string)
    requires Strings.EqualFold(s, t)
    ensures FromString(s) == FromString(t)
  {
    Strings.ToLowerEqualFold(s, t);
  }

  /** Near misses are `Unknown`. */
  lemma FromStringRejects()
    ensures FromString("") == Unknown
    ensures FromString("random-sleep") == Unknown
    ensures FromString("RandomSleep") == RandomSleep
  {
    assert Strings.ToLower("RandomSleep") == "randomsleep";
  }

  /** Go's Unicode lower-casing maps the dotted capital I to 'i'. */
  lemma FromStringUnicodeCase()
    ensures FromString("TR\U{130}GGER") == Trigger
  {
    assert Strings.ToLower("TR\U{130}GGER") == "trigger";
  }

  /** What `stringer -type=StepType` generates for these constants (the
      generated file is not part of this model): the name table and its cuts. */
  const NameTable: string := "Unknown" + "Effect" + "Sleep" + "RandomSleep" + "Trigger" + "Loop"
  const IndexTable: seq<int> := [0, 7, 13, 18, 29, 36, 40]

  lemma IndexTableWellFormed()
    ensures |IndexTable| == 7 && IndexTable[0] == 0 && IndexTable[6] == |NameTable|
    ensures forall k :: 0 <= k < 6 ==> IndexTable[k] < IndexTable[k + 1]
  {
  }

  /** `StepType.String`: a slice of the name table for 0..5, else
      "StepType(" + decimal + ")". */
  function String(i: StepType): (r: string)
    ensures Unknown <= i <= Loop ==> 4 <= |r| <= 11 && r[|r| - 1] != ')'
    ensures !(Unknown <= i <= Loop) ==> |r| >= 11 && r[|r| - 1] == ')'
  {
    IndexTableWellFormed();
    if i < 0 || i >= |IndexTable| - 1 then "StepType(" + Strconv.FormatInt(i) + ")"
    else NameTable[IndexTable[i]..IndexTable[i + 1]]
  }

  /** The index table cuts the name table at the six names. */
  lemma NameSlices()
    ensures NameTable[0..7] == "Unknown" && NameTable[7..13] == "Effect" && NameTable[13..18] == "Sleep"
    ensures NameTable[18..29] == "RandomSleep" && NameTable[29..36] == "Trigger" && NameTable[36..40] == "Loop"
  {
    assert NameTable == ("Unknown" + "Effect" + "Sleep" + "RandomSleep" + "Trigger") + "Loop";
  }

  lemma StringOfConstants()
    ensures String(Unknown) == "Unknown" && String(Effect) == "Effect"
    ensures String(Sleep) == "Sleep" && String(RandomSleep) == "RandomSleep"
    ensures String(Trigger) == "Trigger" && String(Loop) == "Loop"
  {
    NameSlices();
    assert String(Unknown) == NameTable[0..7];
    assert String(Effect) == NameTable[7..13];
    assert String(Sleep) == NameTable[13..18];
    assert String(RandomSleep) == NameTable[18..29];
    assert String(Trigger) == NameTable[29..36];
    assert String(Loop) == NameTable[36..40];
  }

  /** Outside 0..5 the printed form is the decimal value in parentheses, and the
      value can be read back from it. */
  lemma StringOutOfRange(i: StepType)
    requires !(Unknown <= i <= Loop)
    ensures var d := String(i)[9..|String(i)| - 1];
      String(i) == "StepType(" + d + ")" && |d| >= 1 && Strconv.ParseInt(d) == i
  {
    var d := Strconv.FormatInt(i);
    Strconv.ParseFormatInt(i);
    assert String(i)[9..|String(i)| - 1] == d;
  }

  /** No two step values print alike. */
  lemma StringInjective(i: StepType, j: StepType)
    requires String(i) == String(j)
    ensures i == j
  {
    var inI, inJ := Unknown <= i <= Loop, Unknown <= j <= Loop;
    if inI && inJ {
      FromStringOfString(i);
      FromStringOfString(j);
    } else if !inI && !inJ {
      StringOutOfRange(i);
      StringOutOfRange(j);
    }
  }

  /** Printing and parsing round-trip every step type. */
  lemma FromStringOfString(t: StepType)
    requires Unknown <= t <= Loop
    ensures FromString(String(t)) == t
  {
    StringOfConstants();
    NamesLowered();
  }

  /** The printed names, lower-cased. */
  lemma NamesLowered()
    ensures Strings.ToLower("Unknown") == "unknown" && Strings.ToLower("Effect") == "effect"
    ensures Strings.ToLower("Sleep") == "sleep" && Strings.ToLower("RandomSleep") == "randomsleep"
    ensures Strings.ToLower("Trigger") == "trigger" && Strings.ToLower("Loop") == "loop"
  {
  }
}
