/**
 * Day 1: calibration values. A line's value is ten times its first digit plus
 * its last digit, where a digit is either written as `1`..`9` or spelled out
 * as `one`..`nine`. The search goes key by key over the table: each key's
 * first occurrence in the line is compared with the earliest and the latest
 * positions seen so far.
 */
module Day1 {
  import opened Wrappers
  import opened Strings

  /** The table `main` builds: the nine spelled digits and the nine written ones. */
  const Table: map<string, nat> := map[
    "one" := 1, "two" := 2, "three" := 3, "four" := 4, "five" := 5,
    "six" := 6, "seven" := 7, "eight" := 8, "nine" := 9,
    "1" := 1, "2" := 2, "3" := 3, "4" := 4, "5" := 5,
    "6" := 6, "7" := 7, "8" := 8, "9" := 9]

  /** Every value of the table is a single non-zero digit. */
  predicate Digits(table: map<string, nat>)
  {
    forall k :: k in table ==> 1 <= table[k] <= 9
  }

  /** No key of the table is the start of a different key. */
  predicate PrefixFree(table: map<string, nat>)
  {
    forall a, b :: a in table && b in table && |a| <= |b| && b[..|a|] == a ==> a == b
  }

  lemma TableDigits()
    ensures Digits(Table)
  {
  }

  lemma TablePrefixFree()
    ensures PrefixFree(Table)
  {
    forall a, b | a in Table && b in Table && |a| <= |b| && b[..|a|] == a ensures a == b {
      assert a[0] == b[0];
      if |a| > 1 {
        assert a[1] == b[1];
      }
    }
  }

  /** In a prefix-free table, two keys found at the same index of a line are the same key. */
  lemma SameStart(table: map<string, nat>, line: string, a: string, b: string, i: nat)
    requires PrefixFree(table)
    requires a in table && b in table && OccursAt(line, a, i) && OccursAt(line, b, i)
    ensures a == b
  {
    var m := if |a| <= |b| then |a| else |b|;
    assert a[..m] == line[i..i + m] == b[..m];
  }

  /** `find_calibration_value` unwraps both digits: some key must occur in the line. */
  predicate Calibrated(table: map<string, nat>, line: string)
  {
    exists k :: k in table && Find(line, k).Some?
  }

  // ---------------------------------------------------------------------
  // What the value means
  // ---------------------------------------------------------------------

  /** Key `k` occurs at index `i`, and no occurrence of any key starts before `i`. */
  ghost predicate FirstAt(table: map<string, nat>, line: string, k: string, i: nat)
  {
    k in table && OccursAt(line, k, i) &&
    forall k', j: nat :: k' in table && OccursAt(line, k', j) ==> i <= j
  }

  /** Key `k` occurs at index `i`, and no occurrence of any key starts after `i`. */
  ghost predicate LastAt(table: map<string, nat>, line: string, k: string, i: nat)
  {
    k in table && OccursAt(line, k, i) &&
    forall k', j: nat :: k' in table && OccursAt(line, k', j) ==> j <= i
  }

  /** The first digit of the line is spelled by `k`. */
  ghost predicate First(table: map<string, nat>, line: string, k: string)
  {
    exists i :: FirstAt(table, line, k, i)
  }

  /** The last digit of the line is spelled by `k`. */
  ghost predicate Last(table: map<string, nat>, line: string, k: string)
  {
    exists i :: LastAt(table, line, k, i)
  }

  lemma FirstUnique(table: map<string, nat>, line: string, a: string, b: string)
    requires PrefixFree(table) && First(table, line, a) && First(table, line, b)
    ensures a == b
  {
    var i :| FirstAt(table, line, a, i);
    var j :| FirstAt(table, line, b, j);
    assert i <= j && j <= i;
    SameStart(table, line, a, b, i);
  }

  lemma LastUnique(table: map<string, nat>, line: string, a: string, b: string)
    requires PrefixFree(table) && Last(table, line, a) && Last(table, line, b)
    ensures a == b
  {
    var i :| LastAt(table, line, a, i);
    var j :| LastAt(table, line, b, j);
    assert i <= j && j <= i;
    SameStart(table, line, a, b, i);
  }

  // ---------------------------------------------------------------------
  // The search as written
  // ---------------------------------------------------------------------

  /** Among the keys that occur, `k`'s first occurrence is the earliest. */
  predicate Earliest(table: map<string, nat>, line: string, k: string)
  {
    k in table && Find(line, k).Some? &&
    forall k' :: k' in table && Find(line, k').Some? ==> Find(line, k).value <= Find(line, k').value
  }

  /** Among the keys that occur, `k`'s first occurrence is the latest. */
  predicate LatestFirst(table: map<string, nat>, line: string, k: string)
  {
    k in table && Find(line, k).Some? &&
    forall k' :: k' in table && Find(line, k').Some? ==> Find(line, k').value <= Find(line, k).value
  }

  /** The earliest first occurrence is the first digit of the line. */
  lemma EarliestIsFirst(table: map<string, nat>, line: string, k: string)
    ensures Earliest(table, line, k) <==> First(table, line, k)
  {
    if Earliest(table, line, k) {
      var i := Find(line, k).value;
      forall k', j: nat | k' in table && OccursAt(line, k', j) ensures i <= j {
        assert Find(line, k').Some?;
      }
      assert FirstAt(table, line, k, i);
    }
    if First(table, line, k) {
      var i :| FirstAt(table, line, k, i);
      assert Find(line, k).Some?;
      forall k' | k' in table && Find(line, k').Some? ensures Find(line, k).value <= Find(line, k').value {
        assert OccursAt(line, k', Find(line, k').value);
      }
    }
  }

  /** In a prefix-free table the latest first occurrence belongs to one key only. */
  lemma LatestFirstUnique(table: map<string, nat>, line: string, a: string, b: string)
    requires PrefixFree(table) && LatestFirst(table, line, a) && LatestFirst(table, line, b)
    ensures a == b
  {
    SameStart(table, line, a, b, Find(line, a).value);
  }

  /** The first-digit bookkeeping after visiting the keys in `seen`: the earliest first occurrence and its key. */
  ghost predicate EarliestSoFar(table: map<string, nat>, line: string, seen: set<string>, index: Option<nat>, value: Option<nat>, key: string)
  {
    if index.None? then value.None? && forall k :: k in seen ==> Find(line, k).None?
    else
      key in seen && key in table && Find(line, key) == index && value == Some(table[key]) &&
      forall k :: k in seen && Find(line, k).Some? ==> index.value <= Find(line, k).value
  }

  /** The last-digit bookkeeping as written: the latest first occurrence and its key. */
  ghost predicate LatestFirstSoFar(table: map<string, nat>, line: string, seen: set<string>, index: Option<nat>, value: Option<nat>, key: string)
  {
    if index.None? then value.None? && forall k :: k in seen ==> Find(line, k).None?
    else
      key in seen && key in table && Find(line, key) == index && value == Some(table[key]) &&
      forall k :: k in seen && Find(line, k).Some? ==> Find(line, k).value <= index.value
  }

  /** A key that does not occur changes neither digit. */
  lemma SkipAsWritten(table: map<string, nat>, line: string, seen: set<string>, key: string,
                      fi: Option<nat>, fv: Option<nat>, kf: string, li: Option<nat>, lv: Option<nat>, kl: string)
    requires Find(line, key).None?
    requires EarliestSoFar(table, line, seen, fi, fv, kf) && LatestFirstSoFar(table, line, seen, li, lv, kl)
    ensures EarliestSoFar(table, line, seen + {key}, fi, fv, kf) && LatestFirstSoFar(table, line, seen + {key}, li, lv, kl)
  {
  }

  /** Once every key is seen, the bookkeeping holds the earliest and the latest first occurrence. */
  lemma EndAsWritten(table: map<string, nat>, line: string,
                     fi: Option<nat>, fv: Option<nat>, kf: string, li: Option<nat>, lv: Option<nat>, kl: string)
    requires Calibrated(table, line)
    requires EarliestSoFar(table, line, table.Keys, fi, fv, kf) && LatestFirstSoFar(table, line, table.Keys, li, lv, kl)
    ensures Earliest(table, line, kf) && LatestFirst(table, line, kl)
    ensures fv == Some(table[kf]) && lv == Some(table[kl])
  {
  }

  /** The first `if` of the loop: a strictly earlier occurrence replaces the first digit. */
  method VisitFirst(table: map<string, nat>, line: string, ghost seen: set<string>, key: string, i: nat,
                    index: Option<nat>, value: Option<nat>, ghost kf: string)
    returns (index': Option<nat>, value': Option<nat>, ghost kf': string)
    requires key in table && Find(line, key) == Some(i)
    requires EarliestSoFar(table, line, seen, index, value, kf)
    ensures EarliestSoFar(table, line, seen + {key}, index', value', kf')
  {
    if index.None? || index.value > i {
      return Some(i), Some(table[key]), key;
    }
    return index, value, kf;
  }

  /** The second `if` as written: a strictly later first occurrence replaces the last digit. */
  method VisitLastAsWritten(table: map<string, nat>, line: string, ghost seen: set<string>, key: string, i: nat,
                            index: Option<nat>, value: Option<nat>, ghost kl: string)
    returns (index': Option<nat>, value': Option<nat>, ghost kl': string)
    requires key in table && Find(line, key) == Some(i)
    requires LatestFirstSoFar(table, line, seen, index, value, kl)
    ensures LatestFirstSoFar(table, line, seen + {key}, index', value', kl')
  {
    if index.None? || index.value < i {
      return Some(i), Some(table[key]), key;
    }
    return index, value, kl;
  }

  /** One iteration of the loop as written: `find` for one key, then both `if`s. */
  method VisitKeyAsWritten(table: map<string, nat>, line: string, ghost seen: set<string>, key: string,
                           fi: Option<nat>, fv: Option<nat>, ghost kf: string, li: Option<nat>, lv: Option<nat>, ghost kl: string)
    returns (fi': Option<nat>, fv': Option<nat>, ghost kf': string, li': Option<nat>, lv': Option<nat>, ghost kl': string)
    requires key in table
    requires EarliestSoFar(table, line, seen, fi, fv, kf) && LatestFirstSoFar(table, line, seen, li, lv, kl)
    ensures EarliestSoFar(table, line, seen + {key}, fi', fv', kf') && LatestFirstSoFar(table, line, seen + {key}, li', lv', kl')
  {
    fi', fv', kf', li', lv', kl' := fi, fv, kf, li, lv, kl;
    match Find(line, key) {
      case Some(i) =>
        fi', fv', kf' := VisitFirst(table, line, seen, key, i, fi, fv, kf);
        li', lv', kl' := VisitLastAsWritten(table, line, seen, key, i, li, lv, kl);
      case None =>
        SkipAsWritten(table, line, seen, key, fi, fv, kf, li, lv, kl);
    }
  }

  /**
   * `find_calibration_value` as written: over the keys in any order, a key's
   * first occurrence replaces the first digit when strictly earlier and the
   * last digit when strictly later.
   */
  method CalibrationAsWritten(line: string, table: map<string, nat>) returns (v: nat)
    requires Calibrated(table, line)
    ensures exists kf, kl :: Earliest(table, line, kf) && LatestFirst(table, line, kl) && v == 10 * table[kf] + table[kl]
    ensures Digits(table) ==> 11 <= v <= 99
  {
    var firstIndex: Option<nat> := None;
    var firstValue: Option<nat> := None;
    var lastIndex: Option<nat> := None;
    var lastValue: Option<nat> := None;
    ghost var kf: string, kl: string := "", "";
    var keys := table.Keys;
    ghost var seen: set<string> := {};
    while keys != {}
      invariant keys !! seen && keys + seen == table.Keys
      invariant EarliestSoFar(table, line, seen, firstIndex, firstValue, kf)
      invariant LatestFirstSoFar(table, line, seen, lastIndex, lastValue, kl)
      decreases |keys|
    {
      var key :| key in keys;
      firstIndex, firstValue, kf, lastIndex, lastValue, kl :=
        VisitKeyAsWritten(table, line, seen, key, firstIndex, firstValue, kf, lastIndex, lastValue, kl);
      keys, seen := keys - {key}, seen + {key};
    }
    EndAsWritten(table, line, firstIndex, firstValue, kf, lastIndex, lastValue, kl);
    v := firstValue.value * 10 + lastValue.value;
  }

  // ---------------------------------------------------------------------
  // The search with last occurrences
  // ---------------------------------------------------------------------

  /** The last index below `n` where `pat` occurs. */
  function RFindBelow(s: string, pat: string, n: nat): (r: Option<nat>)
    ensures r.Some? ==> r.value < n && OccursAt(s, pat, r.value)
    ensures r.Some? ==> forall j: nat :: r.value < j < n ==> !OccursAt(s, pat, j)
    ensures r.None? ==> forall j: nat :: j < n ==> !OccursAt(s, pat, j)
  {
    if n == 0 then None
    else if OccursAt(s, pat, n - 1) then Some(n - 1)
    else RFindBelow(s, pat, n - 1)
  }

  /** `str::rfind`: the index of the last occurrence of `pat` in `s`. */
  function RFind(s: string, pat: string): (r: Option<nat>)
    ensures r.Some? ==> OccursAt(s, pat, r.value) && forall j: nat :: r.value < j ==> !OccursAt(s, pat, j)
    ensures r.None? ==> forall j: nat :: !OccursAt(s, pat, j)
  {
    RFindBelow(s, pat, |s| + 1)
  }

  /** `find` and `rfind` agree on whether a pattern occurs at all, and `rfind` is never earlier. */
  lemma FindRFind(s: string, pat: string)
    ensures Find(s, pat).Some? <==> RFind(s, pat).Some?
    ensures Find(s, pat).Some? ==> Find(s, pat).value <= RFind(s, pat).value
  {
    if RFind(s, pat).Some? {
      assert OccursAt(s, pat, RFind(s, pat).value);
    }
    if Find(s, pat).Some? {
      assert OccursAt(s, pat, Find(s, pat).value);
    }
  }

  /** Among the keys that occur, `k`'s last occurrence is the latest. */
  predicate Latest(table: map<string, nat>, line: string, k: string)
  {
    k in table && RFind(line, k).Some? &&
    forall k' :: k' in table && RFind(line, k').Some? ==> RFind(line, k').value <= RFind(line, k).value
  }

  /** The latest last occurrence is the last digit of the line. */
  lemma LatestIsLast(table: map<string, nat>, line: string, k: string)
    ensures Latest(table, line, k) <==> Last(table, line, k)
  {
    if Latest(table, line, k) {
      var i := RFind(line, k).value;
      forall k', j: nat | k' in table && OccursAt(line, k', j) ensures j <= i {
        assert RFind(line, k').Some?;
      }
      assert LastAt(table, line, k, i);
    }
    if Last(table, line, k) {
      var i :| LastAt(table, line, k, i);
      assert RFind(line, k).Some?;
      forall k' | k' in table && RFind(line, k').Some? ensures RFind(line, k').value <= RFind(line, k).value {
        assert OccursAt(line, k', RFind(line, k').value);
      }
    }
  }

  /** The last-digit bookkeeping as intended: the latest last occurrence and its key. */
  ghost predicate LatestSoFar(table: map<string, nat>, line: string, seen: set<string>, index: Option<nat>, value: Option<nat>, key: string)
  {
    if index.None? then value.None? && forall k :: k in seen ==> RFind(line, k).None?
    else
      key in seen && key in table && RFind(line, key) == index && value == Some(table[key]) &&
      forall k :: k in seen && RFind(line, k).Some? ==> RFind(line, k).value <= index.value
  }

  /** A key that does not occur changes neither digit. */
  lemma Skip(table: map<string, nat>, line: string, seen: set<string>, key: string,
             fi: Option<nat>, fv: Option<nat>, kf: string, li: Option<nat>, lv: Option<nat>, kl: string)
    requires Find(line, key).None? && RFind(line, key).None?
    requires EarliestSoFar(table, line, seen, fi, fv, kf) && LatestSoFar(table, line, seen, li, lv, kl)
    ensures EarliestSoFar(table, line, seen + {key}, fi, fv, kf) && LatestSoFar(table, line, seen + {key}, li, lv, kl)
  {
  }

  /** Once every key is seen, the bookkeeping holds the earliest first and the latest last occurrence. */
  lemma End(table: map<string, nat>, line: string,
            fi: Option<nat>, fv: Option<nat>, kf: string, li: Option<nat>, lv: Option<nat>, kl: string)
    requires Calibrated(table, line)
    requires EarliestSoFar(table, line, table.Keys, fi, fv, kf) && LatestSoFar(table, line, table.Keys, li, lv, kl)
    ensures First(table, line, kf) && Last(table, line, kl)
    ensures fv == Some(table[kf]) && lv == Some(table[kl])
  {
    FindRFind(line, kf);
    assert Earliest(table, line, kf);
    assert Latest(table, line, kl) by {
      forall k | k in table && RFind(line, k).Some? ensures RFind(line, k).value <= li.value {
      }
    }
    EarliestIsFirst(table, line, kf);
    LatestIsLast(table, line, kl);
  }

  /** One iteration of the intended loop: `find` and `rfind` for one key, then both `if`s. */
  method VisitKey(table: map<string, nat>, line: string, ghost seen: set<string>, key: string,
                  fi: Option<nat>, fv: Option<nat>, ghost kf: string, li: Option<nat>, lv: Option<nat>, ghost kl: string)
    returns (fi': Option<nat>, fv': Option<nat>, ghost kf': string, li': Option<nat>, lv': Option<nat>, ghost kl': string)
    requires key in table
    requires EarliestSoFar(table, line, seen, fi, fv, kf) && LatestSoFar(table, line, seen, li, lv, kl)
    ensures EarliestSoFar(table, line, seen + {key}, fi', fv', kf') && LatestSoFar(table, line, seen + {key}, li', lv', kl')
  {
    FindRFind(line, key);
    fi', fv', kf', li', lv', kl' := fi, fv, kf, li, lv, kl;
    match Find(line, key) {
      case Some(i) =>
        fi', fv', kf' := VisitFirst(table, line, seen, key, i, fi, fv, kf);
        li', lv', kl' := VisitLast(table, line, seen, key, RFind(line, key).value, li, lv, kl);
      case None =>
        Skip(table, line, seen, key, fi, fv, kf, li, lv, kl);
    }
  }

  /** The second `if` as intended: a strictly later last occurrence replaces the last digit. */
  method VisitLast(table: map<string, nat>, line: string, ghost seen: set<string>, key: string, j: nat,
                   index: Option<nat>, value: Option<nat>, ghost kl: string)
    returns (index': Option<nat>, value': Option<nat>, ghost kl': string)
    requires key in table && RFind(line, key) == Some(j)
    requires LatestSoFar(table, line, seen, index, value, kl)
    ensures LatestSoFar(table, line, seen + {key}, index', value', kl')
  {
    if index.None? || index.value < j {
      return Some(j), Some(table[key]), key;
    }
    return index, value, kl;
  }

  /**
   * The calibration value as intended: the same pass over the keys, with the
   * last digit taken from each key's last occurrence (`rfind`). The result is
   * ten times the line's first digit plus its last digit.
   */
  method Calibration(line: string, table: map<string, nat>) returns (v: nat)
    requires Calibrated(table, line)
    ensures exists kf, kl :: First(table, line, kf) && Last(table, line, kl) && v == 10 * table[kf] + table[kl]
    ensures Digits(table) ==> 11 <= v <= 99
  {
    var firstIndex: Option<nat> := None;
    var firstValue: Option<nat> := None;
    var lastIndex: Option<nat> := None;
    var lastValue: Option<nat> := None;
    ghost var kf: string, kl: string := "", "";
    var keys := table.Keys;
    ghost var seen: set<string> := {};
    while keys != {}
      invariant keys !! seen && keys + seen == table.Keys
      invariant EarliestSoFar(table, line, seen, firstIndex, firstValue, kf)
      invariant LatestSoFar(table, line, seen, lastIndex, lastValue, kl)
      decreases |keys|
    {
      var key :| key in keys;
      firstIndex, firstValue, kf, lastIndex, lastValue, kl :=
        VisitKey(table, line, seen, key, firstIndex, firstValue, kf, lastIndex, lastValue, kl);
      keys, seen := keys - {key}, seen + {key};
    }
    End(table, line, firstIndex, firstValue, kf, lastIndex, lastValue, kl);
    v := firstValue.value * 10 + lastValue.value;
  }

  /** A line in which exactly one key occurs is worth eleven times that key's digit. */
  lemma SingleKey(table: map<string, nat>, line: string, k: string, kf: string, kl: string)
    requires k in table && Find(line, k).Some?
    requires forall k' :: k' in table && k' != k ==> Find(line, k').None?
    requires First(table, line, kf) && Last(table, line, kl)
    ensures 10 * table[kf] + table[kl] == 11 * table[k]
  {
    var i :| FirstAt(table, line, kf, i);
    var j :| LastAt(table, line, kl, j);
    assert Find(line, kf).Some? && Find(line, kl).Some?;
  }

  /**
   * With a prefix-free table the order in which the keys are visited does not
   * matter: any two results the search as written may give are equal.
   */
  lemma AsWrittenOrderFree(table: map<string, nat>, line: string, v1: nat, v2: nat)
    requires PrefixFree(table)
    requires exists kf, kl :: Earliest(table, line, kf) && LatestFirst(table, line, kl) && v1 == 10 * table[kf] + table[kl]
    requires exists kf, kl :: Earliest(table, line, kf) && LatestFirst(table, line, kl) && v2 == 10 * table[kf] + table[kl]
    ensures v1 == v2
  {
    var f1, l1 :| Earliest(table, line, f1) && LatestFirst(table, line, l1) && v1 == 10 * table[f1] + table[l1];
    var f2, l2 :| Earliest(table, line, f2) && LatestFirst(table, line, l2) && v2 == 10 * table[f2] + table[l2];
    EarliestIsFirst(table, line, f1);
    EarliestIsFirst(table, line, f2);
    FirstUnique(table, line, f1, f2);
    LatestFirstUnique(table, line, l1, l2);
  }

  /** The same for the intended search: the first and the last digit of a line are each unique. */
  lemma OrderFree(table: map<string, nat>, line: string, v1: nat, v2: nat)
    requires PrefixFree(table)
    requires exists kf, kl :: First(table, line, kf) && Last(table, line, kl) && v1 == 10 * table[kf] + table[kl]
    requires exists kf, kl :: First(table, line, kf) && Last(table, line, kl) && v2 == 10 * table[kf] + table[kl]
    ensures v1 == v2
  {
    var f1, l1 :| First(table, line, f1) && Last(table, line, l1) && v1 == 10 * table[f1] + table[l1];
    var f2, l2 :| First(table, line, f2) && Last(table, line, l2) && v2 == 10 * table[f2] + table[l2];
    FirstUnique(table, line, f1, f2);
    LastUnique(table, line, l1, l2);
  }

  // ---------------------------------------------------------------------
  // Where the two differ
  // ---------------------------------------------------------------------

  /** In `212` the only keys of the table that occur are `1` and `2`. */
  lemma Keys212(k: string, j: nat)
    requires k in Table && OccursAt("212", k, j)
    ensures (k == "2" && (j == 0 || j == 2)) || (k == "1" && j == 1)
  {
    assert k[0] == "212"[j];
  }

  /** On `212` the first occurrences are `2` at index 0 and `1` at index 1. */
  lemma Finds212(k: string)
    requires k in Table && Find("212", k).Some?
    ensures (k == "2" && Find("212", k) == Some(0)) || (k == "1" && Find("212", k) == Some(1))
  {
    Keys212(k, Find("212", k).value);
    if k == "2" {
      assert OccursAt("212", "2", 0);
    }
  }

  /** On `212` the search as written reads the `2` at index 0 and then the `1` at index 1: 21. */
  lemma MisreadOn212(kf: string, kl: string)
    requires Earliest(Table, "212", kf) && LatestFirst(Table, "212", kl)
    ensures kf == "2" && kl == "1"
  {
    assert OccursAt("212", "1", 1) && OccursAt("212", "2", 0);
    Finds212("1");
    Finds212("2");
    Finds212(kf);
    Finds212(kl);
  }

  /** The first digit of `212` is the `2` at index 0 and its last one the `2` at index 2: 22. */
  lemma DigitsOf212(gf: string, gl: string)
    requires First(Table, "212", gf) && Last(Table, "212", gl)
    ensures gf == "2" && gl == "2"
  {
    var i :| FirstAt(Table, "212", gf, i);
    var j :| LastAt(Table, "212", gl, j);
    Keys212(gf, i);
    Keys212(gl, j);
    assert OccursAt("212", "2", 0) && OccursAt("212", "2", 2);
  }

  /**
   * On `212` the search as written reads the last digit from the latest first
   * occurrence, the `1` at index 1, and gives 21; the line's last digit is the
   * `2` at index 2, so the intended value is 22.
   */
  lemma LastDigitMisread(kf: string, kl: string, gf: string, gl: string)
    requires Earliest(Table, "212", kf) && LatestFirst(Table, "212", kl)
    requires First(Table, "212", gf) && Last(Table, "212", gl)
    ensures 10 * Table[kf] + Table[kl] == 21
    ensures 10 * Table[gf] + Table[gl] == 22
  {
    MisreadOn212(kf, kl);
    DigitsOf212(gf, gl);
  }
}
