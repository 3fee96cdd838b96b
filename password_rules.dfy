/** The four password rules the sign-up and reset forms display, and the sign-up form's gating
    pattern `^(?=.*[A-Z])(?=.*\d)(?=.*[!@#$%^&*]).{8,}$`. */
module PasswordRules {
  import opened Encoding

  datatype Rule = Rule(text: string, met: bool)

  const LengthLabel := "At least 8 characters."
  const UppercaseLabel := "At least an uppercase letter."
  const NumberLabel := "At least a number."
  const SpecialLabel := "At least a special character (ex. ?@!)."

  predicate IsUpper(c: char)
  {
    'A' <= c <= 'Z'
  }

  /** The class `[!@#$%^&*]`. */
  predicate IsSpecial(c: char)
  {
    c in "!@#$%^&*"
  }

  /** The characters `.` does not match. */
  predicate IsLineTerminator(c: char)
  {
    c == '\n' || c == '\r' || c == '\U{2028}' || c == '\U{2029}'
  }

  /** An unanchored one-class test such as `/[A-Z]/.test(p)`. */
  predicate Has(p: string, inClass: char -> bool)
  {
    exists i :: 0 <= i < |p| && inClass(p[i])
  }

  /** The rules in display order. */
  function Rules(password: string): (r: seq<Rule>)
    ensures |r| == 4
    ensures r[0].text == LengthLabel && r[1].text == UppercaseLabel && r[2].text == NumberLabel && r[3].text == SpecialLabel
    ensures r[0].met <==> |password| >= 8
    ensures r[1].met <==> exists i :: 0 <= i < |password| && IsUpper(password[i])
    ensures r[2].met <==> exists i :: 0 <= i < |password| && IsDigit(password[i])
    ensures r[3].met <==> exists i :: 0 <= i < |password| && IsSpecial(password[i])
  {
    [ Rule(LengthLabel, |password| >= 8),
      Rule(UppercaseLabel, Has(password, IsUpper)),
      Rule(NumberLabel, Has(password, IsDigit)),
      Rule(SpecialLabel, Has(password, IsSpecial)) ]
  }

  predicate AllRulesMet(password: string)
  {
    forall i :: 0 <= i < |Rules(password)| ==> Rules(password)[i].met
  }

  /** `(?=.*X)` at the start: a character of the class, preceded only by characters `.` matches. */
  predicate Lookahead(p: string, inClass: char -> bool)
  {
    exists k :: 0 <= k < |p| && inClass(p[k]) && forall j :: 0 <= j < k ==> !IsLineTerminator(p[j])
  }

  /** `^.{8,}$`: the whole input is at least eight characters `.` matches. */
  predicate DotsToEnd(p: string)
  {
    |p| >= 8 && forall j :: 0 <= j < |p| ==> !IsLineTerminator(p[j])
  }

  /** The gating pattern, read as its three lookaheads and its anchored body. */
  predicate PatternAccepts(p: string)
  {
    Lookahead(p, IsUpper) && Lookahead(p, IsDigit) && Lookahead(p, IsSpecial) && DotsToEnd(p)
  }

  /** The pattern accepts exactly the passwords that meet all four rules and hold no line terminator. */
  lemma PatternIffRules(p: string)
    ensures PatternAccepts(p) <==> AllRulesMet(p) && forall j :: 0 <= j < |p| ==> !IsLineTerminator(p[j])
  {
    var r := Rules(p);
    if PatternAccepts(p) {
      LookaheadHas(p, IsUpper);
      LookaheadHas(p, IsDigit);
      LookaheadHas(p, IsSpecial);
    }
    if AllRulesMet(p) && forall j :: 0 <= j < |p| ==> !IsLineTerminator(p[j]) {
      assert r[1].met && r[2].met && r[3].met;
      HasLookahead(p, IsUpper);
      HasLookahead(p, IsDigit);
      HasLookahead(p, IsSpecial);
    }
  }

  /** So for passwords without line breaks, the sign-up pattern accepts exactly when every rule shows as met. */
  lemma PatternMatchesRules(p: string)
    requires forall j :: 0 <= j < |p| ==> !IsLineTerminator(p[j])
    ensures PatternAccepts(p) <==> AllRulesMet(p)
  {
    PatternIffRules(p);
  }

  /** A password with a line break never opens the gate, whatever the rules show. */
  lemma LineBreakClosesGate(p: string, j: nat)
    requires j < |p| && IsLineTerminator(p[j])
    ensures !PatternAccepts(p)
  {
    PatternIffRules(p);
  }

  lemma LookaheadHas(p: string, inClass: char -> bool)
    requires Lookahead(p, inClass)
    ensures Has(p, inClass)
  {
    var k :| 0 <= k < |p| && inClass(p[k]) && forall j :: 0 <= j < k ==> !IsLineTerminator(p[j]);
    assert inClass(p[k]);
  }

  lemma HasLookahead(p: string, inClass: char -> bool)
    requires Has(p, inClass) && forall j :: 0 <= j < |p| ==> !IsLineTerminator(p[j])
    ensures Lookahead(p, inClass)
  {
    var k :| 0 <= k < |p| && inClass(p[k]);
    assert forall j :: 0 <= j < k ==> !IsLineTerminator(p[j]);
  }
}
