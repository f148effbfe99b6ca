/**
 * The few operations on `&str` that the solutions rely on, as total functions
 * on `seq<char>`: `str::find`, `str::split`, splitting on spaces while dropping
 * empty tokens, and decimal parsing of a token known to be all digits.
 */
module Strings {
  import opened Wrappers

  /** `pat` occurs in `s` starting at index `j`. */
  predicate OccursAt(s: string, pat: string, j: nat)
  {
    j + |pat| <= |s| && s[j..j + |pat|] == pat
  }

  /** The first index at or after `from` where `pat` occurs. */
  function FindFrom(s: string, pat: string, from: nat): (r: Option<nat>)
    requires from <= |s|
    ensures r.Some? ==> from <= r.value && OccursAt(s, pat, r.value)
    ensures r.Some? ==> forall j :: from <= j < r.value ==> !OccursAt(s, pat, j)
    ensures r.None? ==> forall j :: from <= j <= |s| ==> !OccursAt(s, pat, j)
    decreases |s| - from
  {
    if OccursAt(s, pat, from) then Some(from)
    else if from == |s| then None
    else FindFrom(s, pat, from + 1)
  }

  /** `str::find`: the index of the first occurrence of `pat` in `s`. */
  function Find(s: string, pat: string): (r: Option<nat>)
    ensures r.Some? ==> OccursAt(s, pat, r.value)
    ensures r.Some? ==> forall j :: 0 <= j < r.value ==> !OccursAt(s, pat, j)
    ensures r.None? ==> forall j :: 0 <= j <= |s| ==> !OccursAt(s, pat, j)
  {
    FindFrom(s, pat, 0)
  }

  /** The parts joined back together with `sep` between consecutive ones. */
  function Join(parts: seq<string>, sep: string): string
  {
    if |parts| == 0 then ""
    else if |parts| == 1 then parts[0]
    else parts[0] + sep + Join(parts[1..], sep)
  }

  /**
   * `str::split(sep)` for a non-empty separator: cut `s` at every occurrence
   * of `sep`, searching left to right and resuming after each cut.
   */
  function Split(s: string, sep: string): (r: seq<string>)
    requires |sep| > 0
    ensures |r| >= 1
    ensures |r| == 1 <==> Find(s, sep).None?
    decreases |s|
  {
    match Find(s, sep)
    case None => [s]
    case Some(i) =>
      [s[..i]] + Split(s[i + |sep|..], sep)
  }

  /** No part of a split contains the separator. */
  lemma {:induction false} SplitPartsFree(s: string, sep: string, k: nat)
    requires |sep| > 0 && k < |Split(s, sep)|
    ensures Find(Split(s, sep)[k], sep).None?
    decreases |s|
  {
    match Find(s, sep)
    case None =>
      assert Split(s, sep) == [s];
    case Some(i) =>
      var rest := Split(s[i + |sep|..], sep);
      assert Split(s, sep) == [s[..i]] + rest;
      if k == 0 {
        PrefixBeforeFirst(s, sep, i);
      } else {
        assert Split(s, sep)[k] == rest[k - 1];
        SplitPartsFree(s[i + |sep|..], sep, k - 1);
      }
  }

  /** The text before the first occurrence of `sep` does not contain it. */
  lemma PrefixBeforeFirst(s: string, sep: string, i: nat)
    requires |sep| > 0 && Find(s, sep) == Some(i)
    ensures Find(s[..i], sep).None?
  {
    forall j | 0 <= j <= i ensures !OccursAt(s[..i], sep, j) {
      if OccursAt(s[..i], sep, j) {
        assert s[..i][j..j + |sep|] == s[j..j + |sep|];
        assert OccursAt(s, sep, j);
      }
    }
  }

  /** Splitting and joining with the same separator gives the text back. */
  lemma {:induction false} JoinSplit(s: string, sep: string)
    requires |sep| > 0
    ensures Join(Split(s, sep), sep) == s
    decreases |s|
  {
    var f := Find(s, sep);
    if f.Some? {
      var i := f.value;
      var rest := s[i + |sep|..];
      var tail := Split(rest, sep);
      JoinSplit(rest, sep);
      assert Split(s, sep) == [s[..i]] + tail;
      JoinCons(s[..i], tail, sep);
      SliceAround(s, i, |sep|);
    }
  }

  lemma JoinCons(a: string, tail: seq<string>, sep: string)
    requires |tail| >= 1
    ensures Join([a] + tail, sep) == a + sep + Join(tail, sep)
  {
    assert ([a] + tail)[1..] == tail;
  }

  lemma SliceAround(s: string, i: nat, n: nat)
    requires i + n <= |s|
    ensures s == s[..i] + s[i..i + n] + s[i + n..]
  {
  }

  /** A text without some character of `pat` cannot contain `pat`. */
  lemma NoCharNoOccurrence(t: string, pat: string, idx: nat)
    requires idx < |pat| && pat[idx] !in t
    ensures Find(t, pat).None?
  {
    forall j | 0 <= j <= |t| ensures !OccursAt(t, pat, j) {
      if j + |pat| <= |t| {
        assert t[j..j + |pat|][idx] == t[j + idx];
      }
    }
  }

  /**
   * Joining and splitting with the same separator gives the parts back, when
   * no part but the last holds the separator's first character and the last
   * holds no separator.
   */
  lemma {:induction false} SplitJoin(parts: seq<string>, sep: string)
    requires |sep| > 0 && |parts| >= 1
    requires forall k :: 0 <= k < |parts| - 1 ==> sep[0] !in parts[k]
    requires Find(parts[|parts| - 1], sep).None?
    ensures Split(Join(parts, sep), sep) == parts
    decreases |parts|
  {
    if |parts| > 1 {
      var head := parts[0];
      var rest := Join(parts[1..], sep);
      SplitJoin(parts[1..], sep);
      JoinCons(head, parts[1..], sep);
      assert [head] + parts[1..] == parts;
      SplitAtFirst(head, sep, rest);
    }
  }

  /** A head without the separator's first character is cut off by the first split. */
  lemma SplitAtFirst(head: string, sep: string, rest: string)
    requires |sep| > 0 && sep[0] !in head
    ensures Split(head + sep + rest, sep) == [head] + Split(rest, sep)
  {
    var s := head + sep + rest;
    assert OccursAt(s, sep, |head|) by {
      assert s[|head|..|head| + |sep|] == sep;
    }
    forall j | 0 <= j < |head| ensures !OccursAt(s, sep, j) {
      assert s[j] == head[j];
      if j + |sep| <= |s| {
        assert s[j..j + |sep|][0] == s[j];
      }
    }
    FindFirst(s, sep, |head|);
    assert s[..|head|] == head;
    assert s[|head| + |sep|..] == rest;
  }

  /** An occurrence with none before it is what `Find` returns. */
  lemma FindFirst(s: string, pat: string, i: nat)
    requires OccursAt(s, pat, i)
    requires forall j :: 0 <= j < i ==> !OccursAt(s, pat, j)
    ensures Find(s, pat) == Some(i)
  {
  }

  /** Split on single spaces and drop the empty tokens. */
  function Words(s: string): (r: seq<string>)
    ensures forall k :: 0 <= k < |r| ==> r[k] != "" && ' ' !in r[k]
  {
    NonEmpty(SpaceSplit(s))
  }

  /** `str::split(" ")`; a space-free part is what the host language yields. */
  function SpaceSplit(s: string): (r: seq<string>)
    ensures forall k :: 0 <= k < |r| ==> ' ' !in r[k]
  {
    var r := Split(s, " ");
    forall k | 0 <= k < |r| ensures ' ' !in r[k] {
      SplitPartsFree(s, " ", k);
      NoChar(r[k], ' ');
    }
    r
  }

  /** A text in which the one-character pattern `[c]` is not found does not hold `c`. */
  lemma NoChar(t: string, c: char)
    requires Find(t, [c]).None?
    ensures c !in t
  {
    if c in t {
      var j :| 0 <= j < |t| && t[j] == c;
      assert OccursAt(t, [c], j);
    }
  }

  /** Splitting on one character distributes over a concatenation joined by that character. */
  lemma {:induction false} SplitConcat(a: string, c: char, b: string)
    ensures Split(a + [c] + b, [c]) == Split(a, [c]) + Split(b, [c])
    decreases |a|
  {
    match Find(a, [c])
    case None => SplitConcatNone(a, c, b);
    case Some(i) =>
      var rest := a[i + 1..];
      assert |rest| < |a|;
      SplitConcat(rest, c, b);
      SplitConcatAfter(a, c, b, i);
  }

  /** The base case of `SplitConcat`: `a` holds no `c`, so it is the first part. */
  lemma SplitConcatNone(a: string, c: char, b: string)
    requires Find(a, [c]).None?
    ensures Split(a + [c] + b, [c]) == Split(a, [c]) + Split(b, [c])
  {
    assert Split(a, [c]) == [a];
    NoChar(a, c);
    SplitAtFirst(a, [c], b);
  }

  /** The inductive step of `SplitConcat`: cut at the first `c` of `a`, then split the rest. */
  lemma SplitConcatAfter(a: string, c: char, b: string, i: nat)
    requires Find(a, [c]) == Some(i)
    requires Split(a[i + 1..] + [c] + b, [c]) == Split(a[i + 1..], [c]) + Split(b, [c])
    ensures Split(a + [c] + b, [c]) == Split(a, [c]) + Split(b, [c])
  {
    CutFirst(a, c, b, i);
    SplitFirstChar(a, c, i);
    Regroup(Split(a + [c] + b, [c]), Split(a, [c]), Split(a[i + 1..] + [c] + b, [c]),
            Split(a[i + 1..], [c]), Split(b, [c]), a[..i]);
  }

  /** The first `c` of `a` is also the first `c` of `a + [c] + b`. */
  lemma CutFirst(a: string, c: char, b: string, i: nat)
    requires Find(a, [c]) == Some(i)
    ensures Split(a + [c] + b, [c]) == [a[..i]] + Split(a[i + 1..] + [c] + b, [c])
  {
    var head, tail := a[..i], a[i + 1..];
    SplitFirstChar(a, c, i);
    Reassociate(head, [c], tail, b);
    SplitAtFirst(head, [c], tail + [c] + b);
  }

  lemma Reassociate(h: string, sep: string, t: string, b: string)
    ensures (h + sep + t) + sep + b == h + sep + (t + sep + b)
  {
  }

  lemma Regroup(x: seq<string>, a: seq<string>, r: seq<string>, t: seq<string>, b: seq<string>, h: string)
    requires x == [h] + r && r == t + b && a == [h] + t
    ensures x == a + b
  {
  }

  /** Where the first `c` of `a` is at `i`, the split of `a` is the head and then the split of the rest. */
  lemma SplitFirstChar(a: string, c: char, i: nat)
    requires Find(a, [c]) == Some(i)
    ensures c !in a[..i] && a == a[..i] + [c] + a[i + 1..]
    ensures Split(a, [c]) == [a[..i]] + Split(a[i + 1..], [c])
  {
    PrefixBeforeFirst(a, [c], i);
    NoChar(a[..i], c);
    SliceAround(a, i, 1);
    assert a[i..i + 1] == [c];
  }

  /** Dropping empty parts distributes over concatenation. */
  lemma {:induction false} NonEmptyConcat(x: seq<string>, y: seq<string>)
    ensures NonEmpty(x + y) == NonEmpty(x) + NonEmpty(y)
    decreases |x|
  {
    if |x| > 0 {
      assert (x + y)[0] == x[0];
      assert (x + y)[1..] == x[1..] + y;
      NonEmptyConcat(x[1..], y);
      if x[0] != "" {
        assert [x[0]] + (NonEmpty(x[1..]) + NonEmpty(y)) == ([x[0]] + NonEmpty(x[1..])) + NonEmpty(y);
      }
    } else {
      assert x + y == y;
    }
  }

  /** Words on either side of a space stay apart and keep their order. */
  lemma WordsAppend(a: string, b: string)
    ensures Words(a + " " + b) == Words(a) + Words(b)
  {
    SplitConcat(a, ' ', b);
    NonEmptyConcat(SpaceSplit(a), SpaceSplit(b));
  }

  /** Non-empty, space-free tokens joined by single spaces split back into the same tokens. */
  lemma WordsJoin(tokens: seq<string>)
    requires forall k :: 0 <= k < |tokens| ==> tokens[k] != "" && ' ' !in tokens[k]
    ensures Words(Join(tokens, " ")) == tokens
  {
    if |tokens| == 0 {
      assert Find("", " ").None?;
    } else {
      NoCharNoOccurrence(tokens[|tokens| - 1], " ", 0);
      SplitJoin(tokens, " ");
      NonEmptyKeeps(tokens);
    }
  }

  /** Parts that are all non-empty are kept as they are. */
  lemma {:induction false} NonEmptyKeeps(parts: seq<string>)
    requires forall k :: 0 <= k < |parts| ==> parts[k] != ""
    ensures NonEmpty(parts) == parts
    decreases |parts|
  {
    if |parts| > 0 {
      NonEmptyKeeps(parts[1..]);
    }
  }

  /** The parts that are not empty, in order. */
  function NonEmpty(parts: seq<string>): (r: seq<string>)
    ensures |r| <= |parts|
    ensures forall k :: 0 <= k < |r| ==> r[k] != "" && r[k] in parts
  {
    if |parts| == 0 then []
    else if parts[0] == "" then NonEmpty(parts[1..])
    else [parts[0]] + NonEmpty(parts[1..])
  }

  predicate IsDigit(c: char)
  {
    '0' <= c <= '9'
  }

  /** What `str::parse::<usize>` accepts here: one or more decimal digits. */
  predicate IsDecimal(s: string)
  {
    |s| > 0 && forall k :: 0 <= k < |s| ==> IsDigit(s[k])
  }

  function DigitValue(c: char): (d: nat)
    requires IsDigit(c)
    ensures d <= 9
  {
    (c as int - '0' as int) as nat
  }

  function Pow10(n: nat): (r: nat)
    ensures r >= 1
  {
    if n == 0 then 1 else 10 * Pow10(n - 1)
  }

  function DigitChar(d: nat): (c: char)
    requires d <= 9
    ensures IsDigit(c) && DigitValue(c) == d
  {
    ('0' as int + d) as char
  }

  /** The shortest decimal text of `n`, which `ParseNat` reads back. */
  function Show(n: nat): (s: string)
    ensures IsDecimal(s) && ParseNat(s) == n
    decreases n
  {
    if n < 10 then [DigitChar(n)]
    else
      var s := Show(n / 10) + [DigitChar(n % 10)];
      assert s[..|s| - 1] == Show(n / 10);
      s
  }

  /** The decimal values of the space-separated tokens of `s`, when every token is decimal. */
  predicate NumberList(s: string)
  {
    forall k :: 0 <= k < |Words(s)| ==> IsDecimal(Words(s)[k])
  }

  function Numbers(s: string): (ns: seq<nat>)
    requires NumberList(s)
    ensures |ns| == |Words(s)|
  {
    var w := Words(s);
    seq(|w|, k requires 0 <= k < |w| => ParseNat(w[k]))
  }

  /** A space on both sides changes none of a text's words. */
  lemma SpacedWords(s: string)
    ensures Words(" " + s + " ") == Words(s)
  {
    WordsPadded(s + " ");
    WordsPadded(s);
    assert " " + s + " " == " " + (s + " ");
  }

  /** Texts with the same words hold the same numbers. */
  lemma SameWordsSameNumbers(a: string, b: string)
    requires Words(a) == Words(b)
    ensures NumberList(a) == NumberList(b)
    ensures NumberList(a) ==> Numbers(a) == Numbers(b)
  {
  }

  function ShowAll(ns: seq<nat>): (ts: seq<string>)
    ensures |ts| == |ns| && forall k :: 0 <= k < |ns| ==> ts[k] == Show(ns[k])
  {
    seq(|ns|, k requires 0 <= k < |ns| => Show(ns[k]))
  }

  /** Numbers written in decimal and joined by single spaces read back as the same numbers. */
  lemma NumbersRoundTrip(ns: seq<nat>)
    ensures NumberList(Join(ShowAll(ns), " ")) && Numbers(Join(ShowAll(ns), " ")) == ns
  {
    var ts := ShowAll(ns);
    forall k | 0 <= k < |ts| ensures ts[k] != "" && ' ' !in ts[k] {
      assert IsDecimal(ts[k]);
    }
    WordsJoin(ts);
  }

  /** A character in neither the parts nor the separator is not in their join. */
  lemma {:induction false} JoinAvoids(parts: seq<string>, sep: string, c: char)
    requires c !in sep && forall k :: 0 <= k < |parts| ==> c !in parts[k]
    ensures c !in Join(parts, sep)
    decreases |parts|
  {
    if |parts| > 1 {
      JoinAvoids(parts[1..], sep, c);
    }
  }

  /** Decimal text holds only digits. */
  lemma DecimalAvoids(ns: seq<nat>, c: char)
    requires !IsDigit(c) && c != ' '
    ensures c !in Join(ShowAll(ns), " ")
  {
    var ts := ShowAll(ns);
    forall k | 0 <= k < |ts| ensures c !in ts[k] {
      assert IsDecimal(ts[k]);
    }
    JoinAvoids(ts, " ", c);
  }

  /** Padding a text with spaces on either side changes none of its words. */
  lemma WordsPadded(s: string)
    ensures Words(" " + s) == Words(s) && Words(s + " ") == Words(s)
  {
    WordsAppend("", s);
    assert "" + " " + s == " " + s;
    WordsAppend(s, "");
    assert s + " " + "" == s + " ";
    assert Find("", " ").None?;
  }

  /** The decimal value of a digit string, most significant digit first. */
  function ParseNat(s: string): (r: nat)
    requires forall k :: 0 <= k < |s| ==> IsDigit(s[k])
    ensures r < Pow10(|s|)
  {
    if |s| == 0 then 0
    else 10 * ParseNat(s[..|s| - 1]) + DigitValue(s[|s| - 1])
  }

  // ---------------------------------------------------------------------
  // Numbers in aligned columns
  // ---------------------------------------------------------------------

  function Spaces(n: nat): (r: string)
    ensures |r| == n && forall k :: 0 <= k < n ==> r[k] == ' '
  {
    if n == 0 then "" else " " + Spaces(n - 1)
  }

  /** Each number after its own run of spaces, as in a right-aligned column. */
  function ShowPadded(ns: seq<nat>, pads: seq<nat>): (ts: seq<string>)
    requires |pads| == |ns|
    ensures |ts| == |ns| && forall k :: 0 <= k < |ns| ==> ts[k] == Spaces(pads[k]) + Show(ns[k])
  {
    seq(|ns|, k requires 0 <= k < |ns| => Spaces(pads[k]) + Show(ns[k]))
  }

  /** Leading spaces change none of a text's words. */
  lemma {:induction false} WordsIndented(n: nat, s: string)
    ensures Words(Spaces(n) + s) == Words(s)
  {
    if n > 0 {
      WordsIndented(n - 1, s);
      assert Spaces(n) + s == " " + (Spaces(n - 1) + s);
      WordsPadded(Spaces(n - 1) + s);
    } else {
      assert Spaces(n) + s == s;
    }
  }

  /** A space-free text after a space is the last part of the split on spaces. */
  lemma LastAfterSpace(x: string, t: string)
    requires |x| > 0 && x[|x| - 1] == ' ' && ' ' !in t
    ensures var parts := Split(x + t, " "); parts[|parts| - 1] == t
  {
    var a := x[..|x| - 1];
    assert x + t == a + [' '] + t;
    SplitConcat(a, ' ', t);
    NoCharNoOccurrence(t, " ", 0);
  }

  /** Padded numbers hold no character other than spaces and digits. */
  lemma PaddedAvoids(ns: seq<nat>, pads: seq<nat>, c: char)
    requires |pads| == |ns| && !IsDigit(c) && c != ' '
    ensures c !in Join(ShowPadded(ns, pads), " ")
  {
    var ts := ShowPadded(ns, pads);
    forall k | 0 <= k < |ts| ensures c !in ts[k] {
      assert IsDecimal(Show(ns[k]));
    }
    JoinAvoids(ts, " ", c);
  }

  /** A number after a run of spaces is one word. */
  lemma PaddedWord(pad: nat, x: nat)
    ensures Words(Spaces(pad) + Show(x)) == [Show(x)]
  {
    assert IsDecimal(Show(x));
    WordsIndented(pad, Show(x));
    WordsJoin([Show(x)]);
  }

  /** Tokens of one word each, joined by spaces, have those words in order. */
  lemma {:induction false} WordsOfTokens(ts: seq<string>, ws: seq<string>)
    requires |ts| == |ws| && forall k :: 0 <= k < |ts| ==> Words(ts[k]) == [ws[k]]
    ensures Words(Join(ts, " ")) == ws
    decreases |ts|
  {
    if |ts| == 0 {
      assert Find("", " ").None?;
    } else if |ts| == 1 {
      assert Words(ts[0]) == [ws[0]];
      assert ws == [ws[0]];
    } else {
      var rest := Join(ts[1..], " ");
      assert Words(rest) == ws[1..] by {
        WordsOfTokens(ts[1..], ws[1..]);
      }
      var first := Words(ts[0]);
      assert first == [ws[0]];
      assert Join(ts, " ") == ts[0] + " " + rest;
      WordsAppend(ts[0], rest);
      assert ws == [ws[0]] + ws[1..];
    }
  }

  /** Numbers in aligned columns have the words of the numbers written plainly. */
  lemma WordsPaddedJoin(ns: seq<nat>, pads: seq<nat>)
    requires |pads| == |ns|
    ensures Words(Join(ShowPadded(ns, pads), " ")) == ShowAll(ns)
  {
    var ts, ws := ShowPadded(ns, pads), ShowAll(ns);
    forall k | 0 <= k < |ts| ensures Words(ts[k]) == [ws[k]] {
      PaddedWord(pads[k], ns[k]);
    }
    WordsOfTokens(ts, ws);
  }

  /** Numbers in aligned columns read back as the same numbers. */
  lemma PaddedRoundTrip(ns: seq<nat>, pads: seq<nat>)
    requires |pads| == |ns|
    ensures NumberList(Join(ShowPadded(ns, pads), " ")) && Numbers(Join(ShowPadded(ns, pads), " ")) == ns
  {
    WordsPaddedJoin(ns, pads);
    var ts := ShowAll(ns);
    forall k | 0 <= k < |ts| ensures ts[k] != "" && ' ' !in ts[k] {
      assert IsDecimal(ts[k]);
    }
    WordsJoin(ts);
    NumbersRoundTrip(ns);
    SameWordsSameNumbers(Join(ShowPadded(ns, pads), " "), Join(ts, " "));
  }
}
