/** The canonical form of phone numbers: `normalizePhone`, `formatPhone`, and the SQL twin of the migration. */
module Phone {
  import opened Common
  import opened Decimal

  datatype PhoneError = Required | WrongLength | Unrecognised

  const COUNTRY := "509"
  const NATIONAL_LENGTH := 8
  const MIN_DIGITS := 8
  /** Section 6 of ITU-T Recommendation E.164. */
  const MAX_DIGITS := 15

  // ---------------------------------------------------------------- characters

  /** What JavaScript's `trim` removes. */
  predicate IsSpace(c: char) {
    || c == ' ' || '\t' <= c <= '\r' || c == '\U{00A0}' || c == '\U{1680}' || '\U{2000}' <= c <= '\U{200A}'
    || c == '\U{2028}' || c == '\U{2029}' || c == '\U{202F}' || c == '\U{205F}' || c == '\U{3000}' || c == '\U{FEFF}'
  }

  function TrimLeft(s: string, isSpace: char -> bool): string {
    if s != [] && isSpace(s[0]) then TrimLeft(s[1..], isSpace) else s
  }

  function TrimRight(s: string, isSpace: char -> bool): string {
    if s != [] && isSpace(s[|s| - 1]) then TrimRight(s[..|s| - 1], isSpace) else s
  }

  /** `String.prototype.trim`. */
  function Trim(s: string): string {
    TrimRight(TrimLeft(s, IsSpace), IsSpace)
  }

  /** PostgreSQL's one-argument `trim`: spaces only. */
  function SqlTrim(s: string): string {
    TrimRight(TrimLeft(s, c => c == ' '), c => c == ' ')
  }

  /** `replace(/\D/g, '')`. */
  function Digits(s: string): (d: string)
    ensures AllDigits(d)
  {
    if s == [] then []
    else if IsDigit(s[0]) then [s[0]] + Digits(s[1..])
    else Digits(s[1..])
  }

  predicate AllDigits(s: string) {
    forall i :: 0 <= i < |s| ==> IsDigit(s[i])
  }

  predicate StartsWith(s: string, prefix: string) {
    |prefix| <= |s| && s[..|prefix|] == prefix
  }

  // ------------------------------------------------------------ the two twins

  predicate HasPlus(s: string) {
    StartsWith(Trim(s), "+")
  }

  predicate InternationalLength(digits: string) {
    MIN_DIGITS <= |digits| <= MAX_DIGITS
  }

  function NormalizePhone(input: string): Result<string, PhoneError> {
    var trimmed := Trim(input);
    var digits := Digits(trimmed);
    if |digits| == 0 then Err(Required)
    else if StartsWith(trimmed, "+") then
      if InternationalLength(digits) then Ok("+" + digits) else Err(WrongLength)
    else if |digits| == NATIONAL_LENGTH then Ok("+" + COUNTRY + digits)
    else if StartsWith(digits, "00") then
      if InternationalLength(digits[2..]) then Ok("+" + digits[2..]) else Err(WrongLength)
    else if StartsWith(digits, COUNTRY) && |digits| == |COUNTRY| + NATIONAL_LENGTH then Ok("+" + digits)
    else Err(Unrecognised)
  }

  predicate SqlHasPlus(s: string) {
    StartsWith(SqlTrim(s), "+")
  }

  /** `lajanm_normalize_phone`: never refuses; what it does not recognise it returns unchanged. */
  function SqlNormalize(raw: string): string {
    var digits := Digits(raw);
    if digits == "" then raw
    else if SqlHasPlus(raw) then "+" + digits
    else if |digits| == 8 then "+509" + digits
    else if StartsWith(digits, "00") then "+" + digits[2..]
    else if StartsWith(digits, "509") && |digits| == 11 then "+" + digits
    else raw
  }

  /** `formatPhone`: Haitian numbers in groups, others as they are. */
  function FormatPhone(e164: string): string {
    if |e164| == 12 && StartsWith(e164, "+509") && AllDigits(e164[4..]) then
      var n := e164[4..];
      "+509 " + n[..2] + " " + n[2..4] + " " + n[4..6] + " " + n[6..]
    else e164
  }

  // ---------------------------------------------------------------- digits

  lemma {:induction false} DigitsConcat(s: string, t: string)
    ensures Digits(s + t) == Digits(s) + Digits(t)
  {
    if s == [] {
      assert s + t == t;
    } else {
      DigitsConcat(s[1..], t);
      assert (s + t)[1..] == s[1..] + t;
    }
  }

  lemma {:induction false} DigitsOfDigits(d: string)
    requires AllDigits(d)
    ensures Digits(d) == d
  {
    if d == [] {
    } else {
      DigitsOfDigits(d[1..]);
    }
  }

  lemma {:induction false} TrimLeftDigits(s: string, isSpace: char -> bool)
    requires forall c :: isSpace(c) ==> !IsDigit(c)
    ensures Digits(TrimLeft(s, isSpace)) == Digits(s)
  {
    if s == [] || !isSpace(s[0]) {
    } else {
      TrimLeftDigits(s[1..], isSpace);
    }
  }

  lemma {:induction false} TrimRightDigits(s: string, isSpace: char -> bool)
    requires forall c :: isSpace(c) ==> !IsDigit(c)
    ensures Digits(TrimRight(s, isSpace)) == Digits(s)
  {
    if s == [] || !isSpace(s[|s| - 1]) {
    } else {
      var n := |s| - 1;
      TrimRightDigits(s[..n], isSpace);
      assert s == s[..n] + [s[n]];
      DigitsConcat(s[..n], [s[n]]);
    }
  }

  lemma TrimDigits(s: string)
    ensures Digits(Trim(s)) == Digits(s)
  {
    TrimLeftDigits(s, IsSpace);
    TrimRightDigits(TrimLeft(s, IsSpace), IsSpace);
  }

  /** A string that neither starts nor ends with a space is its own trimming. */
  lemma TrimIdentity(s: string)
    requires s != [] && !IsSpace(s[0]) && !IsSpace(s[|s| - 1])
    ensures Trim(s) == s && SqlTrim(s) == s
  {
  }

  /** The bare spelling of an input: its leading plus, if any, and its digits. */
  function Bare(s: string): string {
    (if HasPlus(s) then "+" else "") + Digits(s)
  }

  lemma BareSpelling(plus: bool, d: string)
    requires AllDigits(d) && d != []
    ensures var s := (if plus then "+" else "") + d;
            Trim(s) == s && SqlTrim(s) == s && Digits(s) == d && HasPlus(s) == plus && SqlHasPlus(s) == plus
  {
    var s := (if plus then "+" else "") + d;
    TrimIdentity(s);
    DigitsOfDigits(d);
    DigitsConcat(if plus then "+" else "", d);
    assert s[0] == if plus then '+' else d[0];
  }

  /** Only a leading plus and the digits matter: every other character of the input is ignored. */
  lemma OnlyPlusAndDigitsMatter(s: string)
    ensures NormalizePhone(s) == NormalizePhone(Bare(s))
  {
    TrimDigits(s);
    if Digits(s) != [] {
      BareSpelling(HasPlus(s), Digits(s));
    } else if HasPlus(s) {
      TrimIdentity("+");
      assert Digits("+") == [];
    } else {
      assert Trim("") == "";
    }
  }

  // ---------------------------------------------------------- canonical numbers

  predicate Canonical(p: string) {
    p != [] && p[0] == '+' && AllDigits(p[1..]) && InternationalLength(p[1..])
  }

  /** The numbers `normalizePhone` returns are exactly the canonical ones, and it leaves those alone. */
  lemma CanonicalFixed(p: string)
    requires Canonical(p)
    ensures NormalizePhone(p) == Ok(p)
  {
    assert p == "+" + p[1..];
    BareSpelling(true, p[1..]);
  }

  lemma ResultCanonical(s: string)
    ensures NormalizePhone(s).Ok? ==> Canonical(NormalizePhone(s).value)
  {
  }

  lemma NormalizeIdempotent(s: string)
    ensures NormalizePhone(s).Ok? ==> NormalizePhone(NormalizePhone(s).value) == NormalizePhone(s)
  {
    ResultCanonical(s);
    if NormalizePhone(s).Ok? {
      CanonicalFixed(NormalizePhone(s).value);
    }
  }

  /** All four spellings of a national number name the same account. */
  lemma FourSpellings(d: string)
    requires AllDigits(d) && |d| == NATIONAL_LENGTH
    ensures NormalizePhone(d) == Ok("+509" + d)
    ensures NormalizePhone("509" + d) == Ok("+509" + d)
    ensures NormalizePhone("00509" + d) == Ok("+509" + d)
    ensures NormalizePhone("+509" + d) == Ok("+509" + d)
  {
    hide Trim, Digits, SqlTrim, NormalizePhone;
    DigitsOnly(d);
    DigitsOnly("509" + d);
    DigitsOnly("00509" + d);
    assert "+" + ("509" + d) == "+509" + d;
    assert ("509" + d)[..2] == "50" && ("509" + d)[..3] == "509";
    assert ("00509" + d)[..2] == "00" && ("00509" + d)[2..] == "509" + d;
    CanonicalFixed("+509" + d);
  }

  lemma CountryPrefix(d: string)
    ensures "" + d == d && "+" + COUNTRY + d == "+509" + d
  {
  }

  /** A number spelled with digits alone. */
  lemma DigitsOnly(d: string)
    requires AllDigits(d) && d != []
    ensures NormalizePhone(d) ==
            if |d| == 8 then Ok("+509" + d)
            else if StartsWith(d, "00") then (if 10 <= |d| <= 17 then Ok("+" + d[2..]) else Err(WrongLength))
            else if StartsWith(d, "509") && |d| == 11 then Ok("+" + d)
            else Err(Unrecognised)
  {
    BareSpelling(false, d);
    CountryPrefix(d);
    hide Trim, Digits, SqlTrim, AllDigits, SqlHasPlus;
  }

  /** A number spelled with a plus and digits. */
  lemma PlusAndDigits(d: string)
    requires AllDigits(d)
    ensures NormalizePhone("+" + d) ==
            if d == [] then Err(Required) else if 8 <= |d| <= 15 then Ok("+" + d) else Err(WrongLength)
  {
    if d == [] {
      TrimIdentity("+");
      assert Digits("+") == [];
    } else {
      BareSpelling(true, d);
    }
  }

  /** A plus counts as leading behind exactly the characters that JavaScript trims. */
  lemma LeadingPlusWhen(c: char, d: string)
    requires AllDigits(d) && d != [] && c != '+'
    ensures HasPlus([c] + "+" + d) <==>
              c in "\t\n\U{000B}\U{000C}\r \U{00A0}\U{1680}\U{2028}\U{2029}\U{202F}\U{205F}\U{3000}\U{FEFF}"
              || '\U{2000}' <= c <= '\U{200A}'
  {
    var s := [c] + "+" + d;
    assert s[1..] == "+" + d;
    assert (s[1..])[0] == '+';
    TrimIdentity("+" + d);
    if !IsSpace(c) {
      TrimIdentity(s);
    } else {
      assert TrimLeft(s, IsSpace) == s[1..];
      assert Trim(s) == s[1..];
    }
  }

  lemma FormattedDigits(n: string)
    requires AllDigits(n) && |n| == 8
    ensures Digits("+509 " + n[..2] + " " + n[2..4] + " " + n[4..6] + " " + n[6..]) == "509" + n
  {
    var a, b, c, d := n[..2], n[2..4], n[4..6], n[6..];
    DigitsOfDigits(a);
    DigitsOfDigits(b);
    DigitsOfDigits(c);
    DigitsOfDigits(d);
    DigitsConcat("+509 " + a + " " + b + " " + c + " ", d);
    DigitsConcat("+509 " + a + " " + b + " " + c, " ");
    DigitsConcat("+509 " + a + " " + b + " ", c);
    DigitsConcat("+509 " + a + " " + b, " ");
    DigitsConcat("+509 " + a + " ", b);
    DigitsConcat("+509 " + a, " ");
    DigitsConcat("+509 ", a);
    PrefixDigits();
    assert n == a + b + c + d;
  }

  lemma PrefixDigits()
    ensures Digits("+509 ") == "509" && Digits(" ") == ""
  {
  }

  /** What is shown to a user reads back as the number it shows. */
  lemma FormatRoundTrip(p: string)
    requires Canonical(p)
    ensures NormalizePhone(FormatPhone(p)) == Ok(p)
  {
    var f := FormatPhone(p);
    if f != p {
      var n := p[4..];
      FormattedDigits(n);
      TrimIdentity(f);
      assert f[..1] == "+";
      assert p == "+" + ("509" + n);
    } else {
      CanonicalFixed(p);
    }
  }

  /** A Haitian number is shown in groups: a blank after the country and after every two digits. */
  lemma FormattedGroups(p: string)
    requires |p| == 12 && StartsWith(p, "+509") && AllDigits(p[4..])
    ensures var f := FormatPhone(p);
            && |f| == 16 && f[0] == '+' && Digits(f) == p[1..]
            && forall k :: 1 <= k < 16 ==> if k in {4, 7, 10, 13} then f[k] == ' ' else IsDigit(f[k])
  {
    var f, n := FormatPhone(p), p[4..];
    FormattedDigits(n);
    assert p[1..] == "509" + n;
    hide Digits;
    assert f[..5] == "+509 " && f[7] == f[10] == f[13] == ' ';
    assert f[1] == '5' && f[2] == '0' && f[3] == '9' && f[4] == ' ';
    assert f[5] == n[0] && f[6] == n[1] && f[8] == n[2] && f[9] == n[3];
    assert f[11] == n[4] && f[12] == n[5] && f[14] == n[6] && f[15] == n[7];
  }

  lemma OthersAsTheyAre(p: string)
    ensures FormatPhone(p) != p ==> |p| == 12 && StartsWith(p, "+509") && AllDigits(p[4..])
  {
    hide Digits;
  }

  // -------------------------------------------------------------- the SQL twin

  lemma SqlIdempotent(raw: string)
    ensures SqlNormalize(SqlNormalize(raw)) == SqlNormalize(raw)
  {
    var d := Digits(raw);
    var r := SqlNormalize(raw);
    if r != raw {
      var rest := r[1..];
      assert r == "+" + rest;
      assert AllDigits(rest);
      if rest != [] {
        BareSpelling(true, rest);
      } else {
        assert Digits("+") == "";
      }
    }
  }

  /**
   On every number registration accepts, the migration computes the same, except where the plus stands
   behind white space that is not a blank: there it does only if the digits are 509 and eight more.
   */
  lemma TwinsAgreeWhen(s: string)
    requires NormalizePhone(s).Ok?
    ensures SqlNormalize(s) == NormalizePhone(s).value <==>
            SqlHasPlus(s) == HasPlus(s) || (|Digits(s)| == 11 && StartsWith(Digits(s), COUNTRY))
  {
    AcceptedForms(s);
    var d := Digits(s);
    if s == "+" + d {
      BareSpelling(true, d);
    }
    hide Trim, SqlTrim, Digits, NormalizePhone, HasPlus, SqlHasPlus;
    if SqlHasPlus(s) != HasPlus(s) {
      PrefixesDiffer(d);
    }
  }

  /** What an accepted input becomes, by its plus and its digits. */
  lemma AcceptedForms(s: string)
    requires NormalizePhone(s).Ok?
    ensures var d := Digits(s);
            && d != []
            && (!HasPlus(s) ==> |d| == 8 || StartsWith(d, "00") || (|d| == 11 && StartsWith(d, "509")))
            && NormalizePhone(s).value ==
               if HasPlus(s) then "+" + d
               else if |d| == 8 then "+509" + d
               else if StartsWith(d, "00") then "+" + d[2..]
               else "+" + d
  {
    TrimDigits(s);
    hide Trim, Digits;
    assert "+" + COUNTRY + Digits(s) == "+509" + Digits(s);
  }

  /** What the migration makes of a number registration refuses: a plus and digits, or nothing new. */
  lemma RefusedForms(s: string)
    requires NormalizePhone(s).Err?
    ensures var d := Digits(s);
            SqlNormalize(s) == if d != [] && SqlHasPlus(s) then "+" + d
                               else if StartsWith(d, "00") then "+" + d[2..]
                               else s
  {
    TrimDigits(s);
    hide Trim, SqlTrim, Digits;
  }

  /**
   Such a number does not become one that registration would accept, but for sixteen or seventeen digits
   that begin with two zeros, behind a plus that only registration sees.
   */
  lemma RefusedStaysRefused(s: string)
    requires NormalizePhone(s).Err?
    ensures Canonical(SqlNormalize(s)) <==>
              HasPlus(s) && !SqlHasPlus(s) && StartsWith(Digits(s), "00") && 16 <= |Digits(s)| <= 17
  {
    RefusedForms(s);
    RefusedDigits(s);
    var d := Digits(s);
    CanonicalPlus(d);
    if |d| >= 2 {
      CanonicalPlus(d[2..]);
    }
    if Canonical(s) {
      CanonicalFixed(s);
    }
    BlankPlus(s);
    assert StartsWith(d, "00") ==> |d| >= 2;
    hide *;
  }

  lemma {:induction false} LeftPlus(s: string)
    requires StartsWith(TrimLeft(s, c => c == ' '), "+")
    ensures TrimLeft(s, IsSpace) != [] && TrimLeft(s, IsSpace)[0] == '+'
  {
    if s[0] == ' ' {
      LeftPlus(s[1..]);
    }
  }

  lemma {:induction false} RightIsPrefix(s: string, isSpace: char -> bool)
    ensures StartsWith(s, TrimRight(s, isSpace))
  {
    if s != [] && isSpace(s[|s| - 1]) {
      RightIsPrefix(s[..|s| - 1], isSpace);
    }
  }

  /** A plus the migration sees registration sees too. */
  lemma BlankPlus(s: string)
    ensures SqlHasPlus(s) ==> HasPlus(s)
  {
    if SqlHasPlus(s) {
      var left := TrimLeft(s, c => c == ' ');
      RightIsPrefix(left, c => c == ' ');
      assert left[0] == SqlTrim(s)[0] == '+';
      LeftPlus(s);
      TrimRightKeepsHead(TrimLeft(s, IsSpace), IsSpace);
    }
  }

  lemma CanonicalPlus(d: string)
    requires AllDigits(d)
    ensures Canonical("+" + d) <==> 8 <= |d| <= 15
  {
    assert ("+" + d)[1..] == d;
  }

  /** By its digits, with a plus or without, a number is refused for its length or its beginning. */
  lemma RefusedDigits(s: string)
    requires NormalizePhone(s).Err?
    ensures var d := Digits(s);
            && (HasPlus(s) ==> !(8 <= |d| <= 15))
            && (!HasPlus(s) && StartsWith(d, "00") ==> !(10 <= |d| <= 17))
  {
    TrimDigits(s);
    hide Trim, Digits;
  }

  /** The three readings of the digits are told apart by their lengths. */
  lemma PrefixesDiffer(d: string)
    ensures "+509" + d != "+" + d
    ensures |d| >= 2 ==> "+" + d[2..] != "+" + d
    ensures StartsWith(d, "509") ==> !StartsWith(d, "00")
  {
    assert |"+509" + d| > |"+" + d|;
    assert |d| >= 2 ==> |"+" + d[2..]| < |"+" + d|;
    assert StartsWith(d, "509") ==> d[0] == '5';
    assert StartsWith(d, "00") ==> d[0] == '0';
  }

  lemma TabSpelling(p: string)
    requires Canonical(p)
    ensures var s := "\t" + p; HasPlus(s) && !SqlHasPlus(s) && Digits(s) == p[1..]
  {
    var s := "\t" + p;
    assert p == "+" + p[1..];
    assert Digits(s) == p[1..] by {
      DigitsConcat("\t", p);
      DigitsConcat("+", p[1..]);
      DigitsOfDigits(p[1..]);
      assert Digits("\t") == "" && Digits("+") == "";
    }
    assert HasPlus(s) by {
      TrimIdentity(p);
      assert s[1..] == p;
      hide TrimRight;
    }
    hide Digits, Canonical;
    TrimRightKeepsHead(s, c => c == ' ');
  }

  /** A tab before the plus: registration reads a canonical number, the migration reads national digits. */
  lemma TabbedPlus(p: string)
    requires Canonical(p)
    ensures NormalizePhone("\t" + p) == Ok(p)
    ensures SqlNormalize("\t" + p) == p <==> |p| == 12 && StartsWith(p, "+509")
  {
    var s := "\t" + p;
    TabSpelling(p);
    hide Trim, SqlTrim, Digits, HasPlus, SqlHasPlus, SqlNormalize;
    TrimDigits(s);
    assert p == "+" + p[1..] && COUNTRY == "509";
    TwinsAgreeWhen(s);
  }

  /** `^[+0-9][0-9 .()-]{6,30}$`: what the request objects let through. */
  predicate DtoAlphabet(s: string) {
    && 7 <= |s| <= 31
    && (s[0] == '+' || IsDigit(s[0]))
    && forall i :: 1 <= i < |s| ==> IsDigit(s[i]) || s[i] in " .()-"
  }

  lemma {:induction false} TrimRightKeepsHead(s: string, isSpace: char -> bool)
    requires s != [] && !isSpace(s[0])
    ensures TrimRight(s, isSpace) != [] && TrimRight(s, isSpace)[0] == s[0]
  {
    if !isSpace(s[|s| - 1]) {
    } else {
      TrimRightKeepsHead(s[..|s| - 1], isSpace);
    }
  }

  /** On every string the request objects accept, the two twins agree whenever registration accepts it. */
  lemma TwinsAgreeOnRequests(s: string)
    requires DtoAlphabet(s)
    ensures NormalizePhone(s).Ok? ==> SqlNormalize(s) == NormalizePhone(s).value
  {
    assert !IsSpace(s[0]);
    TrimRightKeepsHead(s, IsSpace);
    TrimRightKeepsHead(s, c => c == ' ');
    if NormalizePhone(s).Ok? {
      assert SqlHasPlus(s) == (s[0] == '+') == HasPlus(s);
      TwinsAgreeWhen(s);
    }
  }
}

/** The migration that rewrites the users table in place. */
module NormalizePhoneNumbers {
  import opened Common
  import opened Phone

  ghost predicate Collide(phones: seq<string>) {
    exists i, j :: 0 <= i < j < |phones| && SqlNormalize(phones[i]) == SqlNormalize(phones[j])
  }

  /** Every row at least once, in any order the database likes. */
  ghost predicate IsOrder(order: seq<nat>, n: nat) {
    && (forall k :: 0 <= k < |order| ==> order[k] < n)
    && (forall i :: 0 <= i < n ==> i in order)
  }

  /** Any mix of rows already rewritten and rows not yet rewritten is free of duplicates. */
  lemma {:induction false} MixedDistinct(phones: seq<string>, mixed: seq<string>)
    requires !Collide(phones) && |mixed| == |phones|
    requires forall i :: 0 <= i < |phones| ==> mixed[i] == phones[i] || mixed[i] == SqlNormalize(phones[i])
    ensures Distinct(mixed)
  {
    forall i, j | 0 <= i < j < |mixed| ensures mixed[i] != mixed[j] {
      SqlIdempotent(phones[i]);
      SqlIdempotent(phones[j]);
      assert SqlNormalize(mixed[i]) == SqlNormalize(phones[i]);
      assert SqlNormalize(mixed[j]) == SqlNormalize(phones[j]);
    }
  }

  /** The table before and after each single-row update: one row at a time, and never a duplicate. */
  ghost predicate RowByRow(before: seq<string>, order: seq<nat>, tables: seq<seq<string>>) {
    && |tables| == |order| + 1 && tables[0] == before
    && (forall k :: 0 <= k < |tables| ==> |tables[k]| == |before| && Distinct(tables[k]))
    && (forall k {:trigger order[k]} :: 0 <= k < |order| ==>
          order[k] < |before| && tables[k + 1] == tables[k][order[k] := SqlNormalize(before[order[k]])])
  }

  lemma OneRowMore(before: seq<string>, order: seq<nat>, tables: seq<seq<string>>, i: nat)
    requires RowByRow(before, order, tables) && i < |before|
    requires Distinct(tables[|order|][i := SqlNormalize(before[i])])
    ensures RowByRow(before, order + [i], tables + [tables[|order|][i := SqlNormalize(before[i])]])
  {
    hide Distinct, SqlNormalize;
    var order', last := order + [i], tables[|order|][i := SqlNormalize(before[i])];
    var tables' := tables + [last];
    forall k {:trigger order'[k]} | 0 <= k < |order'|
      ensures order'[k] < |before| && tables'[k + 1] == tables'[k][order'[k] := SqlNormalize(before[order'[k]])]
    {
      if k < |order| {
        assert order'[k] == order[k];
      }
    }
  }

  /** `GROUP BY canonical HAVING count(*) > 1`. */
  method HasCollisions(phones: array<string>) returns (collisions: bool)
    ensures collisions == Collide(phones[..])
  {
    for i := 0 to phones.Length
      invariant forall j, k :: 0 <= j < k < i ==> SqlNormalize(phones[j]) != SqlNormalize(phones[k])
    {
      for j := 0 to i
        invariant forall k :: 0 <= k < j ==> SqlNormalize(phones[k]) != SqlNormalize(phones[i])
      {
        if SqlNormalize(phones[j]) == SqlNormalize(phones[i]) {
          assert phones[..][j] == phones[j] && phones[..][i] == phones[i];
          return true;
        }
      }
    }
    return false;
  }

  /**
   Stops before touching a row when two accounts share a canonical number; otherwise rewrites row by
   row, and the unique index on `phone` holds after every single update.
   */
  method Up(phones: array<string>, order: seq<nat>) returns (done: bool, ghost tables: seq<seq<string>>)
    requires IsOrder(order, phones.Length)
    modifies phones
    ensures done == !Collide(old(phones[..]))
    ensures !done ==> phones[..] == old(phones[..])
    ensures done ==> RowByRow(old(phones[..]), order, tables) && tables[|order|] == phones[..]
    ensures done ==> forall i :: 0 <= i < phones.Length ==> phones[i] == SqlNormalize(old(phones[i]))
  {
    var collisions := HasCollisions(phones);
    ghost var before := phones[..];
    tables := [before];
    if collisions {
      return false, tables;
    }
    MixedDistinct(before, phones[..]);
    assert order[..0] == [];
    for k := 0 to |order|
      invariant forall i :: 0 <= i < phones.Length ==>
                  phones[i] == if i in order[..k] then SqlNormalize(before[i]) else before[i]
      invariant RowByRow(before, order[..k], tables) && tables[k] == phones[..]
    {
      hide SqlNormalize, Collide, Distinct, RowByRow;
      var i := order[k];
      SqlIdempotent(before[i]);
      if phones[i] != SqlNormalize(phones[i]) {
        phones[i] := SqlNormalize(phones[i]);
      }
      assert order[..k + 1] == order[..k] + [i];
      MixedDistinct(before, phones[..]);
      assert phones[..] == tables[k][i := SqlNormalize(before[i])];
      OneRowMore(before, order[..k], tables, i);
      tables := tables + [phones[..]];
    }
    assert order[..|order|] == order;
    return true, tables;
  }
}
