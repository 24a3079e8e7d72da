/** The two string transforms applied to a toggle button's `data-series`
    attribute: the key rewrite `replace(/(\d)/, '_$1')` and the legend label
    `replace(/_/g, ' ').replace(/\b\w/g, l => l.toUpperCase())`. */
module SeriesKeys {

  /** A character matched by `\d`. */
  predicate IsDigit(c: char) {
    '0' <= c <= '9'
  }

  /** A character matched by `\w`. */
  predicate IsWordChar(c: char) {
    'a' <= c <= 'z' || 'A' <= c <= 'Z' || IsDigit(c) || c == '_'
  }

  /** A `\w` character other than the underscore. */
  predicate IsAlnum(c: char) {
    IsWordChar(c) && c != '_'
  }

  /** `toUpperCase` on a single `\w` character: only `a`-`z` change. */
  function Upper(c: char): (u: char)
    ensures IsWordChar(u) == IsWordChar(c) && IsAlnum(u) == IsAlnum(c)
    ensures !('a' <= u <= 'z')
    ensures !('a' <= c <= 'z') ==> u == c
    ensures 'a' <= c <= 'z' ==> 'A' <= u <= 'Z' && u as int - 'A' as int == c as int - 'a' as int
  {
    if 'a' <= c <= 'z' then (c as int - 32) as char else c
  }

  /** Position of the first digit of `s`, or `|s|` when it has none. */
  function FirstDigit(s: string): (k: nat)
    ensures k <= |s|
    ensures forall j :: 0 <= j < k ==> !IsDigit(s[j])
    ensures k < |s| ==> IsDigit(s[k])
  {
    if s == [] || IsDigit(s[0]) then 0 else 1 + FirstDigit(s[1..])
  }

  /** The key rewrite: a non-global `replace(/(\d)/, '_$1')`. */
  function RewriteKey(s: string): (r: string)
    ensures |s| <= |r| <= |s| + 1
  {
    if s == [] then []
    else if IsDigit(s[0]) then "_" + s
    else [s[0]] + RewriteKey(s[1..])
  }

  /** The rewrite puts an underscore in front of the first digit only and
      leaves a digit-free attribute as it is. */
  lemma {:induction false} RewriteKeyShape(s: string)
    ensures FirstDigit(s) == |s| ==> RewriteKey(s) == s
    ensures FirstDigit(s) < |s| ==> RewriteKey(s) == s[..FirstDigit(s)] + "_" + s[FirstDigit(s)..]
  {
    if s == [] {
    } else if IsDigit(s[0]) {
      assert s[..0] == [] && s[0..] == s;
    } else {
      var tail := s[1..];
      RewriteKeyShape(tail);
      var k := FirstDigit(s);
      assert k == 1 + FirstDigit(tail);
      assert s == [s[0]] + tail;
      if k < |s| {
        assert s[..k] == [s[0]] + tail[..k - 1];
        assert s[k..] == tail[k - 1..];
      }
    }
  }

  /** Removing the one character the rewrite inserted gives the attribute back;
      the inserted character is an underscore directly before the first digit. */
  lemma {:induction false} RewriteKeyUndo(s: string)
    requires FirstDigit(s) < |s|
    ensures var k := FirstDigit(s); var r := RewriteKey(s);
      |r| == |s| + 1 && r[k] == '_' && IsDigit(r[k + 1]) && r[..k] + r[k + 1..] == s
  {
    var k := FirstDigit(s);
    var a, b := s[..k], s[k..];
    var r := RewriteKey(s);
    RewriteKeyShape(s);
    assert r == a + "_" + b;
    assert r[..k] == a;
    assert r[k + 1..] == b;
    assert r[k + 1] == b[0] == s[k];
    assert a + b == s;
  }

  /** The rewrite is not idempotent: an attribute that already carries an
      underscore before its digit gets a second one (`series_1` becomes
      `series__1`). */
  lemma RewriteKeyNotIdempotent(s: string)
    requires FirstDigit(s) < |s|
    ensures RewriteKey(RewriteKey(s)) != RewriteKey(s)
  {
    var r := RewriteKey(s);
    RewriteKeyUndo(s);
    assert IsDigit(r[FirstDigit(s) + 1]);
    assert FirstDigit(r) < |r|;
    RewriteKeyShape(r);
    assert |RewriteKey(r)| == |r| + 1;
  }

  lemma RewriteKeyExample()
    ensures RewriteKey("series1") == "series_1"
  {
    var s := "series1";
    RewriteKeyShape(s);
    assert FirstDigit(s) == 6 by {
      assert IsDigit(s[6]) && forall j :: 0 <= j < 6 ==> !IsDigit(s[j]);
    }
    assert s[..6] + "_" + s[6..] == "series_1";
  }

  lemma RewriteKeyExampleTwice()
    ensures RewriteKey("series_1") == "series__1"
  {
    var s := "series_1";
    RewriteKeyShape(s);
    assert FirstDigit(s) == 7 by {
      assert IsDigit(s[7]) && forall j :: 0 <= j < 7 ==> !IsDigit(s[j]);
    }
    assert s[..7] + "_" + s[7..] == "series__1";
  }

  /** `replace(/_/g, ' ')`. */
  function Spaced(s: string): (r: string)
    ensures |r| == |s|
    ensures forall i :: 0 <= i < |s| ==> r[i] == if s[i] == '_' then ' ' else s[i]
  {
    if s == [] then []
    else [if s[0] == '_' then ' ' else s[0]] + Spaced(s[1..])
  }

  /** Whether `s[i]` is a `\w` character at a word boundary, `afterWord` telling
      whether the character just before `s` was a `\w` character. */
  predicate StartsWord(s: string, i: nat, afterWord: bool)
    requires i < |s|
  {
    IsWordChar(s[i]) && if i == 0 then !afterWord else !IsWordChar(s[i - 1])
  }

  /** `replace(/\b\w/g, upper)` on `s`: every `\w` character at a word boundary
      is upper-cased, every other character is kept. */
  function CapitalizeAfter(s: string, afterWord: bool): (r: string)
    ensures |r| == |s|
    ensures forall i {:trigger r[i]} :: 0 <= i < |s| ==>
      r[i] == if StartsWord(s, i, afterWord) then Upper(s[i]) else s[i]
  {
    if s == [] then []
    else
      var rest := CapitalizeAfter(s[1..], IsWordChar(s[0]));
      var r := [if IsWordChar(s[0]) && !afterWord then Upper(s[0]) else s[0]] + rest;
      forall i | 1 <= i < |s|
        ensures r[i] == if StartsWord(s, i, afterWord) then Upper(s[i]) else s[i]
      {
        assert r[i] == rest[i - 1];
        assert s[1..][i - 1] == s[i];
        assert StartsWord(s[1..], i - 1, IsWordChar(s[0])) == StartsWord(s, i, afterWord);
      }
      r
  }

  /** The legend label of a series key. */
  function Label(key: string): (r: string)
    ensures |r| == |key|
  {
    CapitalizeAfter(Spaced(key), false)
  }

  /** Every underscore of the key becomes a space, and every letter or digit
      that begins a word (its predecessor is not a letter, digit or underscore)
      is upper-cased; nothing else changes. */
  lemma LabelShape(key: string)
    ensures forall i {:trigger Label(key)[i]} :: 0 <= i < |key| ==>
      Label(key)[i] == if key[i] == '_' then ' '
        else if IsAlnum(key[i]) && (i == 0 || !IsAlnum(key[i - 1])) then Upper(key[i])
        else key[i]
  {
    var spaced := Spaced(key);
    var r := Label(key);
    forall i | 0 <= i < |key|
      ensures r[i] == if key[i] == '_' then ' '
              else if IsAlnum(key[i]) && (i == 0 || !IsAlnum(key[i - 1])) then Upper(key[i])
              else key[i]
    {
      assert IsWordChar(spaced[i]) == IsAlnum(key[i]);
      if i > 0 {
        assert IsWordChar(spaced[i - 1]) == IsAlnum(key[i - 1]);
      }
    }
  }

  /** A label has no underscore left. */
  lemma LabelHasNoUnderscore(key: string)
    ensures '_' !in Label(key)
  {
    var r := Label(key);
    LabelShape(key);
    forall i | 0 <= i < |r| ensures r[i] != '_' {
      assert IsAlnum(Upper(key[i])) == IsAlnum(key[i]);
    }
  }

  /** Labelling a label changes nothing: the transform is idempotent. */
  lemma LabelIdempotent(key: string)
    ensures Label(Label(key)) == Label(key)
  {
    var r := Label(key);
    var rr := Label(r);
    LabelShape(key);
    LabelShape(r);
    forall i | 0 <= i < |key| ensures IsAlnum(r[i]) == IsAlnum(key[i]) && r[i] != '_' {
      assert IsAlnum(Upper(key[i])) == IsAlnum(key[i]);
    }
    forall i | 0 <= i < |key| ensures rr[i] == r[i] {
      if IsAlnum(key[i]) && (i == 0 || !IsAlnum(key[i - 1])) {
        assert r[i] == Upper(key[i]);
        assert Upper(Upper(key[i])) == Upper(key[i]);
      }
    }
  }

  /** The default keys `series_<digit>` are labelled `Series <digit>`. */
  lemma LabelOfSeriesKey(d: char)
    requires IsDigit(d)
    ensures Label("series_" + [d]) == "Series " + [d]
  {
    var k := "series_" + [d];
    var r := Label(k);
    LabelShape(k);
    assert forall i :: 1 <= i < 6 ==> r[i] == k[i];
  }

  lemma LabelExamples()
    ensures Label("series_1") == "Series 1"
  {
    LabelOfSeriesKey('1');
  }
}
