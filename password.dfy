/**
 * The password-strength meter of the sign-up screen
 * (frontend/src/pages/Register.jsx): under six characters is weak; otherwise one
 * point each for length eight or more, a digit, one of `!@#$%^&*`, and an ASCII
 * capital, and the points give the tier.
 */
module Password {

  datatype Strength = Weak | Medium | Strong {
    function Label(): string
    {
      match this
      case Weak => "Weak"
      case Medium => "Medium"
      case Strong => "Strong"
    }

    /** Position in the order weak, medium, strong. */
    function Rank(): nat
    {
      match this
      case Weak => 0
      case Medium => 1
      case Strong => 2
    }

    function Color(): string
    {
      match this
      case Weak => "red"
      case Medium => "yellow"
      case Strong => "green"
    }
  }

  const Specials := "!@#$%^&*"

  /** `/\d/.test(password)`: JavaScript's `\d` is the ASCII digits only. */
  predicate HasNumber(password: string)
  {
    exists i | 0 <= i < |password| :: '0' <= password[i] <= '9'
  }

  /** `/[!@#$%^&*]/.test(password)`. */
  predicate HasSpecial(password: string)
  {
    exists i | 0 <= i < |password| :: password[i] in Specials
  }

  /** `/[A-Z]/.test(password)`. */
  predicate HasUpper(password: string)
  {
    exists i | 0 <= i < |password| :: 'A' <= password[i] <= 'Z'
  }

  /** How many of the four criteria hold. */
  function CriteriaMet(password: string): nat
  {
    (if |password| >= 8 then 1 else 0) + (if HasNumber(password) then 1 else 0)
      + (if HasSpecial(password) then 1 else 0) + (if HasUpper(password) then 1 else 0)
  }

  /** The strength `getPasswordStrength` reports. */
  function StrengthOf(password: string): Strength
  {
    if |password| < 6 then Weak
    else
      var score := CriteriaMet(password);
      if score <= 1 then Weak else if score == 2 then Medium else Strong
  }

  /** `getPasswordStrength`: an early return for short passwords, then a counter raised by
      four independent tests, then the thresholds. */
  method GetPasswordStrength(password: string) returns (s: Strength)
    ensures s == StrengthOf(password)
    ensures |password| < 6 ==> s == Weak
    ensures |password| >= 6 ==>
      (s == Weak <==> CriteriaMet(password) <= 1) &&
      (s == Medium <==> CriteriaMet(password) == 2) &&
      (s == Strong <==> CriteriaMet(password) >= 3)
  {
    if |password| < 6 {
      return Weak;
    }
    var hasNumber := HasNumber(password);
    var hasSpecial := HasSpecial(password);
    var hasUpper := HasUpper(password);
    var score := 0;
    if |password| >= 8 { score := score + 1; }
    if hasNumber { score := score + 1; }
    if hasSpecial { score := score + 1; }
    if hasUpper { score := score + 1; }
    if score <= 1 {
      s := Weak;
    } else if score == 2 {
      s := Medium;
    } else {
      s := Strong;
    }
  }

  /** Length alone earns one point, so a long password without digits, listed symbols
      or capitals stays weak. */
  lemma LongPlainPasswordIsWeak(password: string)
    requires |password| >= 8 && !HasNumber(password) && !HasSpecial(password) && !HasUpper(password)
    ensures StrengthOf(password) == Weak
  {
  }

  /** A password of six or seven characters is strong exactly when it has a digit, a
      listed symbol and a capital. */
  lemma ShortPasswordStrongIff(password: string)
    requires 6 <= |password| <= 7
    ensures StrengthOf(password) == Strong <==> HasNumber(password) && HasSpecial(password) && HasUpper(password)
  {
  }

  /** Adding a character outside `!@#$%^&*` never creates a special character. */
  lemma OtherPunctuationNotSpecial(password: string, c: char)
    requires c !in Specials
    ensures HasSpecial(password + [c]) == HasSpecial(password)
  {
    var p := password + [c];
    if HasSpecial(p) {
      var i :| 0 <= i < |p| && p[i] in Specials;
      assert i < |password| && password[i] == p[i];
    }
    if HasSpecial(password) {
      var i :| 0 <= i < |password| && password[i] in Specials;
      assert p[i] == password[i];
    }
  }

  /** Appending characters never lowers the strength. */
  lemma StrengthMonotone(password: string, extra: string)
    ensures StrengthOf(password).Rank() <= StrengthOf(password + extra).Rank()
  {
    var p := password + extra;
    if HasNumber(password) {
      var i :| 0 <= i < |password| && '0' <= password[i] <= '9';
      assert p[i] == password[i];
    }
    if HasSpecial(password) {
      var i :| 0 <= i < |password| && password[i] in Specials;
      assert p[i] == password[i];
    }
    if HasUpper(password) {
      var i :| 0 <= i < |password| && 'A' <= password[i] <= 'Z';
      assert p[i] == password[i];
    }
  }
}
