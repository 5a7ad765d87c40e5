/**
 * The password-strength meter of the registration form: five criteria are
 * counted and the count is graded Weak, Fair or Strong.
 */
module RegisterForm {

  /** The meter: a bar level 0..3, its label (`text`; `label` is a Dafny keyword) and the CSS class of its colour. */
  datatype Strength = Strength(score: nat, text: string, color: string)

  /** `/[a-z]/`. */
  predicate HasLower(pw: string) {
    exists i :: 0 <= i < |pw| && 'a' <= pw[i] <= 'z'
  }

  /** `/[A-Z]/`. */
  predicate HasUpper(pw: string) {
    exists i :: 0 <= i < |pw| && 'A' <= pw[i] <= 'Z'
  }

  /** `/\d/`. */
  predicate HasDigit(pw: string) {
    exists i :: 0 <= i < |pw| && '0' <= pw[i] <= '9'
  }

  predicate IsAlphanumeric(c: char) {
    'a' <= c <= 'z' || 'A' <= c <= 'Z' || '0' <= c <= '9'
  }

  /** `/[^a-zA-Z0-9]/`. */
  predicate HasSymbol(pw: string) {
    exists i :: 0 <= i < |pw| && !IsAlphanumeric(pw[i])
  }

  /** The number of criteria met: 8+ characters, 12+ characters, mixed case, a digit, a symbol. */
  function CriteriaMet(pw: string): (n: nat)
    ensures n <= 5
    ensures |pw| < 8 ==> n <= 3
  {
    (if |pw| >= 8 then 1 else 0)
    + (if |pw| >= 12 then 1 else 0)
    + (if HasLower(pw) && HasUpper(pw) then 1 else 0)
    + (if HasDigit(pw) then 1 else 0)
    + (if HasSymbol(pw) then 1 else 0)
  }

  const WEAK := Strength(1, "Weak", "bg-destructive")
  const FAIR := Strength(2, "Fair", "bg-primary/60")
  const STRONG := Strength(3, "Strong", "bg-accent")

  /** The grade of a criteria count: at most 1 is Weak, at most 3 is Fair, more is Strong. */
  function Grade(met: nat): (s: Strength)
    ensures s == WEAK <==> met <= 1
    ensures s == FAIR <==> 2 <= met <= 3
    ensures s == STRONG <==> 4 <= met
  {
    if met <= 1 then WEAK else if met <= 3 then FAIR else STRONG
  }

  /** More criteria never give a lower grade. */
  lemma GradeMonotone(a: nat, b: nat)
    requires a <= b
    ensures Grade(a).score <= Grade(b).score
  {
  }

  /** `getPasswordStrength`. */
  method GetPasswordStrength(pw: string) returns (s: Strength)
    ensures pw == "" ==> s == Strength(0, "", "")
    ensures pw != "" ==> s == Grade(CriteriaMet(pw))
    ensures pw != "" ==> 1 <= s.score <= 3
    ensures |pw| < 8 ==> s != STRONG
  {
    if pw == "" {
      return Strength(0, "", "");
    }
    var score := 0;
    if |pw| >= 8 {
      score := score + 1;
    }
    if |pw| >= 12 {
      score := score + 1;
    }
    if HasLower(pw) && HasUpper(pw) {
      score := score + 1;
    }
    if HasDigit(pw) {
      score := score + 1;
    }
    if HasSymbol(pw) {
      score := score + 1;
    }
    if score <= 1 {
      return WEAK;
    }
    if score <= 3 {
      return FAIR;
    }
    return STRONG;
  }

  /** Every criterion that holds for `pw` still holds once characters are appended. */
  lemma CriteriaMonotone(pw: string, extra: string)
    ensures CriteriaMet(pw) <= CriteriaMet(pw + extra)
  {
    var longer := pw + extra;
    assert forall i :: 0 <= i < |pw| ==> longer[i] == pw[i];
    if HasLower(pw) {
      var i :| 0 <= i < |pw| && 'a' <= pw[i] <= 'z';
      assert 'a' <= longer[i] <= 'z';
    }
    if HasUpper(pw) {
      var i :| 0 <= i < |pw| && 'A' <= pw[i] <= 'Z';
      assert 'A' <= longer[i] <= 'Z';
    }
    if HasDigit(pw) {
      var i :| 0 <= i < |pw| && '0' <= pw[i] <= '9';
      assert '0' <= longer[i] <= '9';
    }
    if HasSymbol(pw) {
      var i :| 0 <= i < |pw| && !IsAlphanumeric(pw[i]);
      assert !IsAlphanumeric(longer[i]);
    }
  }

  /** Appending characters to a password never lowers its meter. */
  lemma StrengthMonotone(pw: string, extra: string)
    requires pw != ""
    ensures Grade(CriteriaMet(pw)).score <= Grade(CriteriaMet(pw + extra)).score
  {
    CriteriaMonotone(pw, extra);
    GradeMonotone(CriteriaMet(pw), CriteriaMet(pw + extra));
  }
}
