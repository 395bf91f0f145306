/** Checkpoint file names: how save_checkpoint spells the file for an epoch
    ('epoch_{}.pkl'.format(epoch)) and how it reads an epoch number back out
    of a path (int(file.split('_')[-1].split('.')[0])). */
module CheckpointNames {

  datatype Option<T> = None | Some(value: T)

  /** True for the ten ASCII decimal digits. */
  predicate IsDigit(c: char) {
    '0' <= c <= '9'
  }

  /** A non-empty run of ASCII decimal digits. */
  predicate IsDigits(s: string) {
    |s| > 0 && forall i :: 0 <= i < |s| ==> IsDigit(s[i])
  }

  /** The ASCII white space int() skips around a number. */
  predicate IsSpace(c: char) {
    c == ' ' || c == '\t' || c == '\n' || c == '\r' || c == '\U{000B}' || c == '\U{000C}'
  }

  function DigitChar(d: nat): (c: char)
    requires d < 10
    ensures IsDigit(c) && DigitValue(c) == d
  {
    (d + '0' as int) as char
  }

  function DigitValue(c: char): (d: nat)
    requires IsDigit(c)
    ensures d < 10
  {
    c as int - '0' as int
  }

  /** The value of a string of decimal digits, most significant first. */
  function DigitsValue(s: string): nat
    requires forall i :: 0 <= i < |s| ==> IsDigit(s[i])
  {
    if s == [] then 0
    else DigitsValue(s[..|s| - 1]) * 10 + DigitValue(s[|s| - 1])
  }

  /** Python's '{}'.format(n) for a non-negative int: decimal, no leading zeros. */
  function Decimal(n: nat): (s: string)
    ensures IsDigits(s)
    ensures s[0] == '0' ==> n == 0
  {
    if n < 10 then [DigitChar(n)] else Decimal(n / 10) + [DigitChar(n % 10)]
  }

  /** The file name written for an epoch (line 47). */
  function CheckpointName(epoch: nat): string {
    "epoch_" + Decimal(epoch) + ".pkl"
  }

  /** The path glob.glob reports, for the pattern dir + "/" + "*.pkl", for a directory entry. */
  function GlobPath(dir: string, name: string): string {
    dir + "/" + name
  }

  /** s.split(c)[-1]: the text after the last c, or all of s when c does not occur. */
  function AfterLast(s: string, c: char): string {
    if s == [] then []
    else if s[|s| - 1] == c then []
    else AfterLast(s[..|s| - 1], c) + [s[|s| - 1]]
  }

  /** s.split(c)[0]: the text before the first c, or all of s when c does not occur. */
  function BeforeFirst(s: string, c: char): string {
    if s == [] then []
    else if s[0] == c then []
    else [s[0]] + BeforeFirst(s[1..], c)
  }

  function StripLeading(s: string): string {
    if s != [] && IsSpace(s[0]) then StripLeading(s[1..]) else s
  }

  function StripTrailing(s: string): string {
    if s != [] && IsSpace(s[|s| - 1]) then StripTrailing(s[..|s| - 1]) else s
  }

  /** Python's int(s) on text without underscores: surrounding white space,
      an optional sign, then at least one decimal digit; None where int()
      raises ValueError. */
  function ParseInt(s: string): Option<int> {
    var t := StripTrailing(StripLeading(s));
    if t != [] && (t[0] == '-' || t[0] == '+') then
      if IsDigits(t[1..]) then
        var magnitude: int := DigitsValue(t[1..]);
        Some(if t[0] == '-' then -magnitude else magnitude)
      else None
    else if IsDigits(t) then Some(DigitsValue(t))
    else None
  }

  /** The epoch number save_checkpoint reads from a globbed path (line 49);
      None where int() raises. */
  function ParseEpoch(path: string): Option<int> {
    ParseInt(BeforeFirst(AfterLast(path, '_'), '.'))
  }

  lemma {:induction false} DecimalRoundTrip(n: nat)
    ensures DigitsValue(Decimal(n)) == n
    decreases n
  {
    if n >= 10 {
      var s := Decimal(n);
      assert s[..|s| - 1] == Decimal(n / 10);
      DecimalRoundTrip(n / 10);
    }
  }

  /** int() reads back exactly the number '{}'.format wrote. */
  lemma ParseIntDecimal(n: nat)
    ensures ParseInt(Decimal(n)) == Some(n)
  {
    var s := Decimal(n);
    assert StripLeading(s) == s;
    assert StripTrailing(s) == s;
    DecimalRoundTrip(n);
  }

  lemma {:induction false} AfterLastOfSuffix(a: string, c: char, b: string)
    requires c !in b
    ensures AfterLast(a + [c] + b, c) == b
    decreases |b|
  {
    var s := a + [c] + b;
    if b != [] {
      var b' := b[..|b| - 1];
      assert s[..|s| - 1] == a + [c] + b';
      AfterLastOfSuffix(a, c, b');
      assert b == b' + [b[|b| - 1]];
    } else {
      assert s[|s| - 1] == c;
    }
  }

  lemma {:induction false} BeforeFirstOfPrefix(b: string, c: char, t: string)
    requires c !in b
    ensures BeforeFirst(b + [c] + t, c) == b
    decreases |b|
  {
    var s := b + [c] + t;
    if b != [] {
      assert s[1..] == b[1..] + [c] + t;
      BeforeFirstOfPrefix(b[1..], c, t);
      assert b == [b[0]] + b[1..];
    }
  }

  /** The parse recovers the epoch from the path of the file written for it,
      whatever the directory path holds (underscores and dots included). */
  lemma ParseEpochOfCheckpoint(dir: string, epoch: nat)
    ensures ParseEpoch(GlobPath(dir, CheckpointName(epoch))) == Some(epoch)
  {
    var digits := Decimal(epoch);
    var path := GlobPath(dir, CheckpointName(epoch));
    assert '_' !in digits + ".pkl" by {
      assert forall i :: 0 <= i < |digits| ==> IsDigit(digits[i]);
    }
    assert path == (dir + "/epoch") + ['_'] + (digits + ".pkl");
    AfterLastOfSuffix(dir + "/epoch", '_', digits + ".pkl");
    assert '.' !in digits by {
      assert forall i :: 0 <= i < |digits| ==> IsDigit(digits[i]);
    }
    assert digits + ".pkl" == digits + ['.'] + "pkl";
    BeforeFirstOfPrefix(digits, '.', "pkl");
    ParseIntDecimal(epoch);
  }

  /** Distinct epochs get distinct file names. */
  lemma CheckpointNameInjective(a: nat, b: nat)
    ensures CheckpointName(a) == CheckpointName(b) <==> a == b
  {
    ParseEpochOfCheckpoint("", a);
    ParseEpochOfCheckpoint("", b);
  }

  /** split(c)[-1] is the part of s after its last c: a suffix free of c,
      preceded in s by c unless it is all of s. */
  lemma {:induction false} AfterLastIsLastPart(s: string, c: char)
    ensures var r := AfterLast(s, c);
      |r| <= |s| && r == s[|s| - |r|..] && c !in r && (|r| < |s| ==> s[|s| - |r| - 1] == c)
    decreases |s|
  {
    if s != [] && s[|s| - 1] != c {
      AfterLastIsLastPart(s[..|s| - 1], c);
    }
  }

  /** split(c)[0] is the part of s before its first c: a prefix free of c,
      followed in s by c unless it is all of s. */
  lemma {:induction false} BeforeFirstIsFirstPart(s: string, c: char)
    ensures var r := BeforeFirst(s, c);
      |r| <= |s| && r == s[..|r|] && c !in r && (|r| < |s| ==> s[|r|] == c)
    decreases |s|
  {
    if s != [] && s[0] != c {
      BeforeFirstIsFirstPart(s[1..], c);
    }
  }

  /** Stripping removes white space from the front only, and stops at the
      first character that is not white space. */
  lemma {:induction false} StripLeadingRemovesSpace(s: string)
    ensures var r := StripLeading(s);
      |r| <= |s| && r == s[|s| - |r|..] && (r != [] ==> !IsSpace(r[0])) &&
      forall i :: 0 <= i < |s| - |r| ==> IsSpace(s[i])
    decreases |s|
  {
    if s != [] && IsSpace(s[0]) {
      StripLeadingRemovesSpace(s[1..]);
    }
  }

  /** Stripping removes white space from the end only, and stops at the
      last character that is not white space. */
  lemma {:induction false} StripTrailingRemovesSpace(s: string)
    ensures var r := StripTrailing(s);
      |r| <= |s| && r == s[..|r|] && (r != [] ==> !IsSpace(r[|r| - 1])) &&
      forall i :: |r| <= i < |s| ==> IsSpace(s[i])
    decreases |s|
  {
    if s != [] && IsSpace(s[|s| - 1]) {
      StripTrailingRemovesSpace(s[..|s| - 1]);
    }
  }

  /** Stripping white space keeps every other character. */
  lemma StripKeepsSlash(s: string)
    requires '/' in s
    ensures '/' in StripTrailing(StripLeading(s))
  {
    var u := StripLeading(s);
    StripLeadingRemovesSpace(s);
    StripTrailingRemovesSpace(u);
    var k :| 0 <= k < |s| && s[k] == '/';
    assert !IsSpace(s[k]);
    var j := k - (|s| - |u|);
    assert 0 <= j < |u| && u[j] == '/';
    assert StripTrailing(u)[j] == '/';
  }

  /** int() refuses text holding a '/'. */
  lemma ParseIntRejectsSlash(s: string)
    requires '/' in s
    ensures ParseInt(s) == None
  {
    var t := StripTrailing(StripLeading(s));
    StripKeepsSlash(s);
    var j :| 0 <= j < |t| && t[j] == '/';
    if t[0] == '-' || t[0] == '+' {
      assert t[1..][j - 1] == '/';
      assert !IsDigits(t[1..]);
    } else {
      assert !IsDigits(t);
    }
  }
}
