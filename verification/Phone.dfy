/** One canonical spelling for a customer's phone number. */
module Phone {
  import opened Text
  import opened Decimal

  /** Assumed for numbers in national format. */
  const DEFAULT_COUNTRY_CODE := "92"

  predicate IsLetter(c: char) { 'a' <= c <= 'z' || 'A' <= c <= 'Z' }

  predicate HasLetter(s: string) { exists i :: 0 <= i < |s| && IsLetter(s[i]) }

  /** The decimal digits of `s`, in order. */
  function Digits(s: string): (d: string)
    ensures AllDigits(d) && |d| <= |s|
  {
    if s == [] then [] else Digits(s[..|s| - 1]) + (if IsDigit(s[|s| - 1]) then [s[|s| - 1]] else [])
  }

  /** Readable as a phone number: no letters, and long enough to dial. */
  predicate Dialable(s: string) { !HasLetter(s) && |Digits(s)| >= 7 }

  /** International form of a digit string. */
  function International(d: string, cc: string): string {
    if "00" <= d then "+" + d[2..]
    else if "0" <= d then (if cc == "" then "+" + d else "+" + cc + d[1..])
    else "+" + d
  }

  function Canonical(raw: string, cc: string): string {
    if Dialable(TrimSpace(raw)) then International(Digits(TrimSpace(raw)), cc) else TrimSpace(raw)
  }

  method NormalizeCC(raw: string, cc: string) returns (r: string)
    ensures r == Canonical(raw, cc)
  {
    var trimmed := TrimSpace(raw);
    if trimmed == "" { return ""; }
    var d, letters := "", false;
    for i := 0 to |trimmed|
      invariant d == Digits(trimmed[..i])
      invariant letters <==> HasLetter(trimmed[..i])
    {
      DigitsStep(trimmed, i);
      if IsDigit(trimmed[i]) {
        d := d + [trimmed[i]];
      } else if IsLetter(trimmed[i]) {
        letters := true;
      }
    }
    assert trimmed[..|trimmed|] == trimmed;
    if letters || |d| < 7 { return trimmed; }
    if "00" <= d {
      d := d[2..];
    } else if "0" <= d {
      if cc == "" { return "+" + d; }
      d := cc + d[1..];
    }
    return "+" + d;
  }

  lemma DigitsStep(s: string, i: nat)
    requires i < |s|
    ensures Digits(s[..i + 1]) == Digits(s[..i]) + (if IsDigit(s[i]) then [s[i]] else [])
    ensures HasLetter(s[..i + 1]) <==> HasLetter(s[..i]) || IsLetter(s[i])
  {
    assert s[..i + 1][..i] == s[..i];
    if HasLetter(s[..i]) {
      var k :| 0 <= k < i && IsLetter(s[..i][k]);
      assert IsLetter(s[..i + 1][k]);
    }
    if IsLetter(s[i]) { assert IsLetter(s[..i + 1][i]); }
  }

  // ----- trimming and formatting are not identity -----

  lemma {:induction false} DigitsOfDigits(d: string)
    requires AllDigits(d)
    ensures Digits(d) == d
  {
    if d != [] { DigitsOfDigits(d[..|d| - 1]); }
  }

  lemma {:induction false} DigitsConcat(a: string, b: string)
    ensures Digits(a + b) == Digits(a) + Digits(b)
  {
    if b == [] {
      assert a + b == a;
    } else {
      assert (a + b)[..|a + b| - 1] == a + b[..|b| - 1];
      DigitsConcat(a, b[..|b| - 1]);
    }
  }

  lemma HasLetterConcat(a: string, b: string)
    ensures HasLetter(a + b) <==> HasLetter(a) || HasLetter(b)
  {
    if HasLetter(a) {
      var k :| 0 <= k < |a| && IsLetter(a[k]);
      assert IsLetter((a + b)[k]);
    }
    if HasLetter(b) {
      var k :| 0 <= k < |b| && IsLetter(b[k]);
      assert IsLetter((a + b)[|a| + k]);
    }
  }

  lemma {:induction false} TrimLeftKeeps(s: string)
    ensures Digits(TrimLeft(s)) == Digits(s) && (HasLetter(TrimLeft(s)) <==> HasLetter(s))
  {
    if s != [] && IsSpace(s[0]) {
      assert s == s[..1] + s[1..];
      DigitsConcat(s[..1], s[1..]);
      HasLetterConcat(s[..1], s[1..]);
      assert s[..1][..0] == [];
      TrimLeftKeeps(s[1..]);
    }
  }

  lemma {:induction false} TrimRightKeeps(s: string)
    ensures Digits(TrimRight(s)) == Digits(s) && (HasLetter(TrimRight(s)) <==> HasLetter(s))
  {
    if s != [] && IsSpace(s[|s| - 1]) {
      var front, last := s[..|s| - 1], s[|s| - 1..];
      assert s == front + last;
      HasLetterConcat(front, last);
      TrimRightKeeps(front);
    }
  }

  lemma TrimKeeps(s: string)
    ensures Digits(TrimSpace(s)) == Digits(s) && (HasLetter(TrimSpace(s)) <==> HasLetter(s))
  {
    TrimLeftKeeps(s);
    TrimRightKeeps(TrimLeft(s));
  }

  lemma CanonicalByDigits(raw: string, cc: string)
    ensures Canonical(raw, cc) == if Dialable(raw) then International(Digits(raw), cc) else TrimSpace(raw)
  {
    TrimKeeps(raw);
  }

  lemma PlusTrimmed(d: string)
    requires AllDigits(d)
    ensures Trimmed("+" + d) && Digits("+") == "" && !HasLetter("+") && !HasLetter(d)
  {
    assert "+"[..0] == "";
    assert d != [] ==> ("+" + d)[|d|] == d[|d| - 1];
  }

  /** "+" followed by digits reads back as those digits. */
  lemma PlusDigits(d: string)
    requires AllDigits(d)
    ensures Digits("+" + d) == d && !HasLetter("+" + d) && TrimSpace("+" + d) == "+" + d
  {
    DigitsOfDigits(d);
    DigitsConcat("+", d);
    HasLetterConcat("+", d);
    PlusTrimmed(d);
    TrimmedIsFixed("+" + d);
  }

  // ----- a second pass changes nothing, or exactly when it does -----

  /** A country code: empty, or digits not starting with zero. */
  predicate CountryCode(cc: string) { AllDigits(cc) && !("0" <= cc) }

  /** A dialled prefix one zero too long (two, without a country code), on a number that stays long enough to dial. */
  predicate ZerosRemain(raw: string, cc: string) {
    !HasLetter(raw) && |Digits(raw)| >= 9 && (if cc == "" then "0000" <= Digits(raw) else "000" <= Digits(raw))
  }

  lemma IdempotentIff(raw: string, cc: string)
    requires CountryCode(cc)
    ensures Canonical(Canonical(raw, cc), cc) == Canonical(raw, cc) <==> !ZerosRemain(raw, cc)
  {
    CanonicalByDigits(raw, cc);
    var once := Canonical(raw, cc);
    CanonicalByDigits(once, cc);
    if Dialable(raw) {
      var d := once[1..];
      assert once == "+" + d;
      InternationalDigits(Digits(raw), cc);
      PlusDigits(d);
      SecondPass(Digits(raw), cc);
    } else {
      TrimKeeps(raw);
      TrimSpaceTrims(raw);
      TrimmedIsFixed(once);
    }
  }

  lemma InternationalDigits(d: string, cc: string)
    requires AllDigits(d) && AllDigits(cc)
    ensures var r := International(d, cc); r != "" && r[0] == '+' && AllDigits(r[1..])
  {
  }

  /** A second pass would change the number `e`. */
  predicate Changes(e: string, cc: string) { |e| >= 7 && International(e, cc) != "+" + e }

  lemma SecondPass(d: string, cc: string)
    requires AllDigits(d) && |d| >= 7 && CountryCode(cc)
    ensures Changes(International(d, cc)[1..], cc) <==> |d| >= 9 && if cc == "" then "0000" <= d else "000" <= d
  {
    var e := International(d, cc)[1..];
    if "00" <= d {
      assert e == d[2..];
      assert "0000" <= d <==> "00" <= e;
      assert "000" <= d <==> "0" <= e;
      ChangesIff(e, cc);
    } else {
      NationalIsStable(d, cc);
    }
  }

  lemma ChangesIff(e: string, cc: string)
    requires AllDigits(e) && CountryCode(cc)
    ensures Changes(e, cc) <==> |e| >= 7 && if cc == "" then "00" <= e else "0" <= e
  {
    if "00" <= e {
      assert |International(e, cc)| == |e| - 1;
    } else if "0" <= e && cc != "" {
      assert International(e, cc)[1] == cc[0];
    }
  }

  lemma ZerosNest(d: string)
    ensures ("000" <= d ==> "00" <= d) && ("0000" <= d ==> "00" <= d)
  {
    assert forall i :: 0 <= i < |d| ==> d[i] == d[..][i];
  }

  lemma NationalIsStable(d: string, cc: string)
    requires AllDigits(d) && CountryCode(cc) && !("00" <= d)
    ensures !Changes(International(d, cc)[1..], cc) && !("000" <= d) && !("0000" <= d)
  {
    ZerosNest(d);
    if "0" <= d && cc != "" {
      var e := cc + d[1..];
      assert International(d, cc)[1..] == e;
      assert e[0] == cc[0] != '0';
      assert International(e, cc) == "+" + e;
    } else {
      assert International(d, cc) == "+" + d;
    }
  }

  // ----- one customer, one account -----

  /**
    Exactly the spellings of one subscriber share the canonical form: the national number behind a zero, the
    international one behind a double zero, and the bare international one, however punctuated.
   */
  lemma SpellingsOfOneNumber(raw: string, cc: string, n: string)
    requires CountryCode(cc) && cc != "" && AllDigits(n) && |n| >= 6 && !("0" <= n)
    ensures Canonical(raw, cc) == "+" + cc + n <==>
            !HasLetter(raw) && (Digits(raw) == "0" + n || Digits(raw) == "00" + cc + n || Digits(raw) == cc + n)
  {
    CanonicalByDigits(raw, cc);
    var target := cc + n;
    assert "+" + cc + n == "+" + target;
    if Dialable(raw) {
      SpellingDigits(Digits(raw), cc, n);
    } else if TrimSpace(raw) == "+" + target {
      TrimKeeps(raw);
      PlusDigits(target);
    }
  }

  /**
    A trunk zero kept behind the country code is the spelling that stays apart: stable, but not the
    number's canonical form.
   */
  lemma TrunkZeroStaysApart(raw: string, cc: string, n: string)
    requires CountryCode(cc) && cc != "" && AllDigits(n) && |n| >= 6 && !("0" <= n) && Dialable(raw) &&
             Digits(raw) == cc + "0" + n
    ensures Canonical(raw, cc) == "+" + cc + "0" + n && Canonical(Canonical(raw, cc), cc) == Canonical(raw, cc)
    ensures Canonical(raw, cc) != "+" + cc + n
  {
    CanonicalByDigits(raw, cc);
    var d := Digits(raw);
    assert d[0] == cc[0];
    assert !("0" <= d) && !("00" <= d) && !("000" <= d);
    IdempotentIff(raw, cc);
    assert "+" + d == "+" + cc + "0" + n;
    assert |"+" + d| != |"+" + cc + n|;
  }

  lemma SpellingDigits(d: string, cc: string, n: string)
    requires AllDigits(d) && CountryCode(cc) && cc != "" && AllDigits(n) && !("0" <= n) && n != ""
    ensures International(d, cc) == "+" + (cc + n) <==> d == "0" + n || d == "00" + cc + n || d == cc + n
  {
    Prefixes(cc, n);
    if "00" <= d { DoubleZero(d, cc, n); } else if "0" <= d { SingleZero(d, cc, n); } else { NoZero(d, cc, n); }
  }

  lemma Prefixes(cc: string, n: string)
    requires CountryCode(cc) && cc != "" && !("0" <= n) && n != ""
    ensures "0" <= "0" + n && !("00" <= "0" + n) && "00" <= "00" + cc + n && !("0" <= cc + n)
  {
    assert ("0" + n)[1] == n[0] && (cc + n)[0] == cc[0];
  }

  lemma {:induction false} DoubleZero(d: string, cc: string, n: string)
    requires "00" <= d
    ensures International(d, cc) == "+" + (cc + n) <==> d == "00" + cc + n
  {
    assert d == "00" + d[2..];
    assert International(d, cc)[1..] == d[2..];
    assert ("00" + cc + n)[2..] == cc + n && ("+" + (cc + n))[1..] == cc + n;
  }

  lemma {:induction false} SingleZero(d: string, cc: string, n: string)
    requires "0" <= d && !("00" <= d) && cc != ""
    ensures International(d, cc) == "+" + (cc + n) <==> d == "0" + n
  {
    assert d == "0" + d[1..];
    assert International(d, cc)[1 + |cc|..] == d[1..];
    assert ("+" + (cc + n))[1 + |cc|..] == n && ("0" + n)[1..] == n;
    if d == "0" + n { assert International(d, cc) == "+" + cc + n == "+" + (cc + n); }
  }

  lemma {:induction false} NoZero(d: string, cc: string, n: string)
    requires !("0" <= d)
    ensures International(d, cc) == "+" + (cc + n) <==> d == cc + n
  {
    assert International(d, cc)[1..] == d;
    assert ("+" + (cc + n))[1..] == cc + n;
  }

  /** What has letters in it or is too short to dial is kept as written, without the blanks around it. */
  lemma UndialableKept(raw: string, cc: string)
    requires HasLetter(raw) || |Digits(raw)| < 7
    ensures Canonical(raw, cc) == TrimSpace(raw)
  {
    TrimKeeps(raw);
  }
}
