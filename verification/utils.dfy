/**
 The client's shared formatting helpers: the salary formatter, the status
 badge colours and the camel-case-to-title conversion used on status labels.
 */
module Utils {
  import opened Text

  /** `formatCurrency`: the salary text is displayed exactly as stored. */
  function FormatCurrency(value: string): (r: string)
    ensures |r| == |value| && forall i :: 0 <= i < |r| ==> r[i] == value[i]
  {
    value
  }

  datatype BadgeClasses = BadgeClasses(bg: string, text: string)

  const NeutralBadge := BadgeClasses("bg-neutral-100", "text-neutral-600")

  /** `getStatusBadgeClasses`: three statuses have their own colour, every other string is neutral. */
  function StatusBadgeClasses(status: string): (r: BadgeClasses)
    ensures status == "completed" ==> r == BadgeClasses("bg-green-100", "text-green-800")
    ensures status == "in-progress" ==> r == BadgeClasses("bg-blue-100", "text-blue-800")
    ensures status == "recommended" ==> r == BadgeClasses("bg-amber-100", "text-amber-800")
    ensures r == NeutralBadge <==> !HasOwnColour(status)
  {
    match status
    case "completed" => BadgeClasses("bg-green-100", "text-green-800")
    case "in-progress" => BadgeClasses("bg-blue-100", "text-blue-800")
    case "available" => NeutralBadge
    case "eligible" => NeutralBadge
    case "recommended" => BadgeClasses("bg-amber-100", "text-amber-800")
    case "option" => NeutralBadge
    case _ => NeutralBadge
  }

  predicate HasOwnColour(status: string) {
    status == "completed" || status == "in-progress" || status == "recommended"
  }

  /** Two statuses share badge classes exactly when they are equal or both neutral. */
  lemma BadgeClassesDistinguish(a: string, b: string)
    ensures StatusBadgeClasses(a) == StatusBadgeClasses(b) <==> a == b || (!HasOwnColour(a) && !HasOwnColour(b))
  {
  }

  function CountUpper(s: string): nat {
    if |s| == 0 then 0 else (if IsUpper(s[0]) then 1 else 0) + CountUpper(s[1..])
  }

  /**
   `str.replace(/([A-Z])/g, ' $1')`: one space before every ASCII capital,
   everything else kept. A capital in the result always follows a space.
   */
  function InsertSpaces(s: string): (r: string)
    ensures |r| == |s| + CountUpper(s)
    ensures |r| > 0 ==> !IsUpper(r[0])
  {
    if |s| == 0 then ""
    else (if IsUpper(s[0]) then [' ', s[0]] else [s[0]]) + InsertSpaces(s[1..])
  }

  /** A capital in the spaced text always follows a space. */
  lemma {:induction false} CapitalsFollowSpace(s: string)
    ensures forall i :: 0 <= i < |InsertSpaces(s)| && IsUpper(InsertSpaces(s)[i]) ==> i > 0 && InsertSpaces(s)[i - 1] == ' '
  {
    if |s| > 0 {
      CapitalsFollowSpace(s[1..]);
      var rest := InsertSpaces(s[1..]);
      var head := if IsUpper(s[0]) then [' ', s[0]] else [s[0]];
      var r := InsertSpaces(s);
      assert r == head + rest;
      forall i | 0 <= i < |r| ensures IsUpper(r[i]) ==> i > 0 && r[i - 1] == ' ' {
        if i < |head| {
          assert r[i] == head[i];
          if IsUpper(s[0]) {
            assert head == [' ', s[0]] && r[0] == ' ';
          } else {
            assert head == [s[0]] && r[0] == s[0];
          }
        } else {
          assert r[i] == rest[i - |head|];
          if i == |head| {
            assert !IsUpper(rest[0]);
          } else {
            assert r[i - 1] == rest[i - 1 - |head|];
          }
        }
      }
    }
  }

  /** Drops a space that stands before a capital: the undoing of `InsertSpaces`. */
  function RemoveInsertedSpaces(t: string): string {
    if |t| == 0 then ""
    else if |t| >= 2 && t[0] == ' ' && IsUpper(t[1]) then [t[1]] + RemoveInsertedSpaces(t[2..])
    else [t[0]] + RemoveInsertedSpaces(t[1..])
  }

  lemma {:induction false} InsertSpacesRoundTrip(s: string)
    ensures RemoveInsertedSpaces(InsertSpaces(s)) == s
  {
    if |s| > 0 {
      InsertSpacesRoundTrip(s[1..]);
      var rest := InsertSpaces(s[1..]);
      if IsUpper(s[0]) {
        assert InsertSpaces(s)[2..] == rest;
      } else {
        assert InsertSpaces(s)[1..] == rest;
      }
    }
  }

  /** `toTitleCase`: spaces inserted, then the first character upper-cased. */
  function ToTitleCase(s: string): (r: string)
    ensures |r| == |s| + CountUpper(s)
    ensures |s| == 0 ==> r == ""
    ensures |s| > 0 && IsUpper(s[0]) ==> r[0] == ' ' && r[1] == s[0]
    ensures |s| > 0 && !IsUpper(s[0]) ==> r[0] == UpperChar(s[0])
    ensures |r| > 0 ==> r[1..] == InsertSpaces(s)[1..]
  {
    var t := InsertSpaces(s);
    if |t| == 0 then "" else [UpperChar(t[0])] + t[1..]
  }

  /** Past the first character, the title is the spaced text, so the original string is recoverable from it. */
  lemma ToTitleCaseRecoverable(s: string)
    requires |s| > 0
    ensures RemoveInsertedSpaces([(if IsUpper(s[0]) then ' ' else s[0])] + ToTitleCase(s)[1..]) == s
  {
    var t := InsertSpaces(s);
    assert [(if IsUpper(s[0]) then ' ' else s[0])] + ToTitleCase(s)[1..] == t;
    InsertSpacesRoundTrip(s);
  }

  /** Text without capitals passes through unchanged. */
  lemma {:induction false} InsertSpacesNoCapitals(s: string)
    requires forall i :: 0 <= i < |s| ==> !IsUpper(s[i])
    ensures InsertSpaces(s) == s
  {
    if |s| > 0 {
      InsertSpacesNoCapitals(s[1..]);
    }
  }

  /** The replacement works character by character, so it distributes over concatenation. */
  lemma {:induction false} InsertSpacesAppend(a: string, b: string)
    ensures InsertSpaces(a + b) == InsertSpaces(a) + InsertSpaces(b)
  {
    if |a| > 0 {
      assert (a + b)[1..] == a[1..] + b;
      InsertSpacesAppend(a[1..], b);
    } else {
      assert a + b == b;
    }
  }

  /** A status without capitals (every status the model uses) only gets its first letter upper-cased. */
  lemma ToTitleCaseNoCapitals(s: string)
    requires |s| > 0
    requires forall i :: 0 <= i < |s| ==> !IsUpper(s[i])
    ensures ToTitleCase(s) == [UpperChar(s[0])] + s[1..]
  {
    InsertSpacesNoCapitals(s);
  }

  /** The status label of an in-progress node. */
  lemma ToTitleCaseOfStatus(s: string)
    requires s == "in-progress"
    ensures ToTitleCase(s) == "In-progress"
  {
    ToTitleCaseNoCapitals(s);
  }

  lemma ToTitleCaseOfCapital()
    ensures ToTitleCase("Foo") == " Foo"
  {
    var s := "Foo";
    InsertSpacesNoCapitals(s[1..]);
    assert InsertSpaces(s) == [' ', 'F'] + s[1..];
    assert ToTitleCase(s) == [UpperChar(' ')] + InsertSpaces(s)[1..];
  }
}
