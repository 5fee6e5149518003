/** The password strength meter of `src/components/PasswordStrengthIndicator.tsx`: four
    requirements, a password accepted when it meets all of them, and a bar whose width
    and colour follow how many it meets. */
module Password {
  import opened Common

  datatype Requirement = MinLength | Lowercase | Uppercase | Digit

  /** The requirements, in the order the list shows them. */
  const Requirements: seq<Requirement> := [MinLength, Lowercase, Uppercase, Digit]

  function Label(r: Requirement): string
  {
    match r
    case MinLength => "At least 8 characters"
    case Lowercase => "Lowercase letter"
    case Uppercase => "Uppercase letter"
    case Digit => "Number"
  }

  /** A string's `length` in JavaScript: UTF-16 code units, two for a character outside
      the Basic Multilingual Plane. */
  function Utf16Length(p: string): (n: nat)
    ensures n >= |p|
  {
    if p == [] then 0 else (if p[0] as int > 0xFFFF then 2 else 1) + Utf16Length(p[1..])
  }

  predicate HasIn(p: string, lo: char, hi: char)
  {
    exists i :: 0 <= i < |p| && lo <= p[i] <= hi
  }

  /** Each requirement's test. */
  predicate Test(r: Requirement, p: string)
  {
    match r
    case MinLength => Utf16Length(p) >= 8
    case Lowercase => HasIn(p, 'a', 'z')
    case Uppercase => HasIn(p, 'A', 'Z')
    case Digit => HasIn(p, '0', '9')
  }

  function Passes(p: string): Requirement -> bool
  {
    (r: Requirement) => Test(r, p)
  }

  /** `validatePassword`: every requirement passes. */
  predicate ValidatePassword(p: string)
  {
    forall r :: r in Requirements ==> Test(r, p)
  }

  /** The rule the requirements add up to. */
  lemma ValidIffRules(p: string)
    ensures ValidatePassword(p) <==>
      Utf16Length(p) >= 8 && HasIn(p, 'a', 'z') && HasIn(p, 'A', 'Z') && HasIn(p, '0', '9')
  {
    assert MinLength in Requirements && Lowercase in Requirements;
    assert Uppercase in Requirements && Digit in Requirements;
  }

  /** `passedCount`. */
  function PassedCount(p: string): (n: nat)
    ensures n <= 4
  {
    Count(Requirements, Passes(p))
  }

  /** A password is valid exactly when all four requirements pass. */
  lemma ValidIffAllPassed(p: string)
    ensures ValidatePassword(p) <==> PassedCount(p) == 4
  {
    var s := Requirements;
    assert s[1..] == [Lowercase, Uppercase, Digit];
    assert s[1..][1..] == [Uppercase, Digit];
    assert s[1..][1..][1..] == [Digit];
    assert s[1..][1..][1..][1..] == [];
  }

  /** `strengthPercent`: the share of requirements met, as a percentage. */
  function StrengthPercent(p: string): (pct: nat)
    ensures pct == 25 * PassedCount(p) && pct <= 100
  {
    PassedCount(p) * 100 / |Requirements|
  }

  datatype Color = Destructive | Orange | Yellow | Green

  /** The bar's colour, by threshold on the percentage. */
  function StrengthColor(pct: int): Color
  {
    if pct <= 25 then Destructive
    else if pct <= 50 then Orange
    else if pct <= 75 then Yellow
    else Green
  }

  function Rank(c: Color): nat
  {
    match c
    case Destructive => 0
    case Orange => 1
    case Yellow => 2
    case Green => 3
  }

  /** The colour by number of requirements met, and its growth with that number. */
  lemma ColorByCount(n: nat, m: nat)
    requires n <= m <= 4
    ensures StrengthColor(25 * n) == (if n <= 1 then Destructive else if n == 2 then Orange
                                      else if n == 3 then Yellow else Green)
    ensures Rank(StrengthColor(25 * n)) <= Rank(StrengthColor(25 * m))
  {
  }

  /** What the indicator renders for a non-empty password. */
  datatype Meter = Meter(percent: nat, color: Color, passed: seq<bool>)

  /** The component: nothing for the empty password, else the bar and one check per
      requirement. */
  function Indicator(p: string): (m: Option<Meter>)
    ensures m.None? <==> p == []
    ensures m.Some? ==> m.value.percent == 25 * PassedCount(p) && |m.value.passed| == 4
    ensures m.Some? ==> forall i :: 0 <= i < 4 ==> m.value.passed[i] == Test(Requirements[i], p)
  {
    if p == [] then None
    else
      var pct := StrengthPercent(p);
      Some(Meter(pct, StrengthColor(pct), seq(4, i requires 0 <= i < 4 => Test(Requirements[i], p))))
  }

  /** The meter is green exactly for a valid password. */
  lemma GreenIffValid(p: string)
    requires p != []
    ensures Indicator(p).value.color == Green <==> ValidatePassword(p)
  {
    ValidIffAllPassed(p);
    ColorByCount(PassedCount(p), 4);
  }
}
