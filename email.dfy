/** The contact form's email check: the regular expression ^[^\s@]+@[^\s@]+\.[^\s@]+$
    tested against the whole field value.

    The regular expression is given two readings here. `MatchesPattern` and `EmailShape`
    describe its language declaratively; `IsValidEmail` decides it with a left-to-right
    scan over a seven-state automaton, and its contract says it accepts exactly that language. */
module Email {

  /** JavaScript's `\s` class: the WhiteSpace and LineTerminator code points
      (ECMAScript 2019 and later, so U+180E is not among them). */
  predicate IsWs(c: char): (r: bool)
    ensures c == ' ' || c == '\t' || c == '\n' || c == '\r' ==> r
    ensures ' ' < c <= '~' ==> !r
  {
    c == '\t' || c == '\n' || c == '\U{B}' || c == '\U{C}' || c == '\r' || c == ' '
    || c == '\U{A0}' || c == '\U{1680}' || ('\U{2000}' <= c <= '\U{200A}')
    || c == '\U{2028}' || c == '\U{2029}' || c == '\U{202F}' || c == '\U{205F}'
    || c == '\U{3000}' || c == '\U{FEFF}'
  }

  /** The character class [^\s@]. */
  predicate Plain(c: char) {
    !IsWs(c) && c != '@'
  }

  ghost predicate AllPlain(t: string) {
    forall k :: 0 <= k < |t| ==> Plain(t[k])
  }

  /** `t` holds a '.' with at least one character on each side of it. */
  ghost predicate HasInnerDot(t: string) {
    exists k :: 0 < k < |t| - 1 && t[k] == '.'
  }

  /** The pattern read literally: a non-empty run of [^\s@], '@', a non-empty run,
      '.', a non-empty run, and nothing before or after. */
  ghost predicate MatchesPattern(s: string) {
    exists i, j :: 0 < i && i + 1 < j < |s| - 1 && s[i] == '@' && s[j] == '.'
      && AllPlain(s[..i]) && AllPlain(s[i + 1..j]) && AllPlain(s[j + 1..])
  }

  /** `t` splits at index `i` as L + "@" + R with L == t[..i] and R == t[i + 1..],
      where neither part holds whitespace or '@' and R has an inner dot. */
  ghost predicate SplitsAt(t: string, i: int) {
    0 <= i < |t| && t[i] == '@' && AllPlain(t[..i]) && AllPlain(t[i + 1..]) && HasInnerDot(t[i + 1..])
  }

  /** The same language as `MatchesPattern`, split at the '@': s == L + "@" + R with L non-empty. */
  ghost predicate EmailShape(s: string) {
    exists i :: 0 < i && SplitsAt(s, i)
  }

  /** The states of the scan: what has been read so far. */
  datatype Phase =
    | Start     // nothing yet
    | Local     // a non-empty local part
    | AtSign    // local part and '@'
    | Domain    // '@' and a non-empty run holding no '.' past its first character
    | Dot       // a '.' that has at least one character before it in the domain
    | TopLevel  // at least one character after such a '.': accepting
    | Reject    // no continuation can match

  function Step(q: Phase, c: char): Phase {
    match q
    case Start => if Plain(c) then Local else Reject
    case Local => if c == '@' then AtSign else if Plain(c) then Local else Reject
    case AtSign => if Plain(c) then Domain else Reject
    case Domain => if c == '.' then Dot else if Plain(c) then Domain else Reject
    case Dot => if Plain(c) then TopLevel else Reject
    case TopLevel => if Plain(c) then TopLevel else Reject
    case Reject => Reject
  }

  function Scan(q: Phase, s: string): Phase
    decreases |s|
  {
    if s == [] then q else Scan(Step(q, s[0]), s[1..])
  }

  /** The remainders `t` that take state `q` to acceptance. */
  ghost predicate Completes(q: Phase, t: string) {
    match q
    case Start => EmailShape(t)
    case Local => exists i :: SplitsAt(t, i)
    case AtSign => AllPlain(t) && HasInnerDot(t)
    case Domain => AllPlain(t) && exists k :: 0 <= k < |t| - 1 && t[k] == '.'
    case Dot => AllPlain(t) && |t| > 0
    case TopLevel => AllPlain(t)
    case Reject => false
  }

  lemma AllPlainCons(c: char, t: string)
    ensures AllPlain([c] + t) <==> Plain(c) && AllPlain(t)
  {
    var ct := [c] + t;
    if Plain(c) && AllPlain(t) {
      forall k | 0 <= k < |ct| ensures Plain(ct[k]) {
        if k > 0 { assert ct[k] == t[k - 1]; }
      }
    }
    if AllPlain(ct) {
      assert Plain(ct[0]);
      forall k | 0 <= k < |t| ensures Plain(t[k]) { assert t[k] == ct[k + 1]; }
    }
  }

  /** Shifting a split of `t` one place right gives a split of [c] + t, and back. */
  lemma SplitsAtCons(c: char, t: string, i: int)
    requires 0 <= i
    ensures SplitsAt([c] + t, i + 1) <==> Plain(c) && SplitsAt(t, i)
  {
    var ct := [c] + t;
    if i < |t| {
      assert ct[..i + 1] == [c] + t[..i];
      AllPlainCons(c, t[..i]);
      assert ct[i + 2..] == t[i + 1..];
    }
  }

  lemma StepStart(c: char, t: string)
    ensures Completes(Start, [c] + t) <==> Completes(Step(Start, c), t)
  {
    if Completes(Start, [c] + t) {
      var i :| 0 < i && SplitsAt([c] + t, i);
      SplitsAtCons(c, t, i - 1);
    }
    if Completes(Step(Start, c), t) {
      var i :| SplitsAt(t, i);
      SplitsAtCons(c, t, i);
    }
  }

  lemma StepLocal(c: char, t: string)
    ensures Completes(Local, [c] + t) <==> Completes(Step(Local, c), t)
  {
    var ct := [c] + t;
    AllPlainCons(c, t);
    assert ct[1..] == t;
    assert ct[..0] == [];
    if Completes(Local, ct) {
      var i :| SplitsAt(ct, i);
      if i > 0 { SplitsAtCons(c, t, i - 1); }
    }
    if Completes(Step(Local, c), t) {
      if c == '@' {
        assert SplitsAt(ct, 0);
      } else {
        var i :| SplitsAt(t, i);
        SplitsAtCons(c, t, i);
      }
    }
  }

  lemma StepAtSign(c: char, t: string)
    ensures Completes(AtSign, [c] + t) <==> Completes(Step(AtSign, c), t)
  {
    var ct := [c] + t;
    AllPlainCons(c, t);
    if Completes(AtSign, ct) {
      var k :| 0 < k < |ct| - 1 && ct[k] == '.';
      assert t[k - 1] == '.';
    }
    if Completes(Step(AtSign, c), t) {
      var k :| 0 <= k < |t| - 1 && t[k] == '.';
      assert ct[k + 1] == '.';
    }
  }

  lemma StepDomain(c: char, t: string)
    ensures Completes(Domain, [c] + t) <==> Completes(Step(Domain, c), t)
  {
    var ct := [c] + t;
    AllPlainCons(c, t);
    if Completes(Domain, ct) {
      var k :| 0 <= k < |ct| - 1 && ct[k] == '.';
      if k > 0 { assert t[k - 1] == '.'; }
    }
    if Completes(Step(Domain, c), t) {
      if c == '.' {
        assert ct[0] == '.';
      } else {
        var k :| 0 <= k < |t| - 1 && t[k] == '.';
        assert ct[k + 1] == '.';
      }
    }
  }

  /** Reading `c` from `q` leaves exactly the remainders that `q` needed after `c`. */
  lemma StepCompletes(q: Phase, c: char, t: string)
    ensures Completes(q, [c] + t) <==> Completes(Step(q, c), t)
  {
    match q
    case Start => StepStart(c, t);
    case Local => StepLocal(c, t);
    case AtSign => StepAtSign(c, t);
    case Domain => StepDomain(c, t);
    case _ => AllPlainCons(c, t);
  }

  lemma {:induction false} ScanCompletes(q: Phase, t: string)
    ensures Scan(q, t) == TopLevel <==> Completes(q, t)
    decreases |t|
  {
    if t == [] {
      assert AllPlain(t);
    } else {
      assert t == [t[0]] + t[1..];
      StepCompletes(q, t[0], t[1..]);
      ScanCompletes(Step(q, t[0]), t[1..]);
    }
  }

  /** isValidEmail: the scan from the start state ends accepting exactly on the
      strings of the form local-part '@' domain with an inner dot. */
  predicate IsValidEmail(s: string): (r: bool)
    ensures r <==> EmailShape(s)
  {
    ScanCompletes(Start, s);
    Scan(Start, s) == TopLevel
  }

  lemma PatternGivesShape(s: string)
    requires MatchesPattern(s)
    ensures EmailShape(s)
  {
    var i, j :| 0 < i && i + 1 < j < |s| - 1 && s[i] == '@' && s[j] == '.'
      && AllPlain(s[..i]) && AllPlain(s[i + 1..j]) && AllPlain(s[j + 1..]);
    var r := s[i + 1..];
    assert r[j - i - 1] == '.';
    forall k | 0 <= k < |r| ensures Plain(r[k]) {
      if i + 1 + k < j {
        assert r[k] == s[i + 1..j][k];
      } else if i + 1 + k > j {
        assert r[k] == s[j + 1..][k - (j - i)];
      }
    }
    assert SplitsAt(s, i);
  }

  lemma ShapeGivesPattern(s: string)
    requires EmailShape(s)
    ensures MatchesPattern(s)
  {
    var i :| 0 < i && SplitsAt(s, i);
    var r := s[i + 1..];
    var k :| 0 < k < |r| - 1 && r[k] == '.';
    var j := i + 1 + k;
    assert s[j] == '.';
    assert s[i + 1..j] == r[..k];
    assert s[j + 1..] == r[k + 1..];
  }

  /** The two readings of the regular expression describe one language. */
  lemma PatternIsShape(s: string)
    ensures MatchesPattern(s) <==> EmailShape(s)
  {
    if MatchesPattern(s) { PatternGivesShape(s); }
    if EmailShape(s) { ShapeGivesPattern(s); }
  }

  /** A valid address holds exactly one '@', with at least one character before it,
      and no whitespace at all. */
  lemma ValidEmailHasOneAt(s: string)
    requires IsValidEmail(s)
    ensures exists i :: 0 < i < |s| - 1 && s[i] == '@' && (forall k :: 0 <= k < |s| && k != i ==> s[k] != '@')
    ensures forall k :: 0 <= k < |s| ==> !IsWs(s[k])
  {
    var i :| 0 < i && SplitsAt(s, i);
    forall k | 0 <= k < |s| && k != i ensures Plain(s[k]) {
      if k < i { assert s[k] == s[..i][k]; } else { assert s[k] == s[i + 1..][k - i - 1]; }
    }
  }

  /** A plain address passes. */
  lemma AcceptsPlainAddress()
    ensures IsValidEmail("a@b.com")
  {
  }

  /** Strings without an '@', or without a dot that has a character after it, fail. */
  lemma RejectsMalformed()
    ensures !IsValidEmail("not-an-email")
    ensures !IsValidEmail("a@b")
    ensures !IsValidEmail("a@b.")
  {
  }

  /** An empty local part, whitespace or a second '@' fail. */
  lemma RejectsBadCharacters()
    ensures !IsValidEmail("@b.com")
    ensures !IsValidEmail("a b@c.d")
    ensures !IsValidEmail("a@b@c.d")
  {
    var s1, s2, s3 := "@b.com", "a b@c.d", "a@b@c.d";
    assert s1[1..] == "b.com";
    RejectAbsorbs("b.com");
    assert s2[1..] == " b@c.d" && s2[1..][1..] == "b@c.d";
    RejectAbsorbs("b@c.d");
    assert s3[1..] == "@b@c.d" && s3[1..][1..] == "b@c.d" && s3[1..][1..][1..] == "@c.d";
    assert s3[1..][1..][1..][1..] == "c.d";
    RejectAbsorbs("c.d");
  }

  /** Once rejected, no remainder is accepted. */
  lemma {:induction false} RejectAbsorbs(t: string)
    ensures Scan(Reject, t) == Reject
    decreases |t|
  {
    if t != [] {
      RejectAbsorbs(t[1..]);
    }
  }

  /** The domain may begin with '.', as long as a later '.' has a character after it. */
  lemma AcceptsLeadingDotInDomain()
    ensures IsValidEmail("a@.b.c")
    ensures !IsValidEmail("a@.b")
  {
  }
}
