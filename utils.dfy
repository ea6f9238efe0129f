/** lib/utils.ts: the string helpers `capitalize` and `truncate`, the form
    validators `isValidEmail` and `isValidPassword`, and the record helpers
    `groupBy`, `omit` and `pick`.

    A plain JavaScript object used as a dictionary is a `Record`: its own
    keys in enumeration order and the map from key to value. */
module Utils {
  import opened Common
  import opened Text

  // ---------------------------------------------------------------------
  // Strings

  /** `capitalize`: the first character upper-cased, the rest lower-cased. */
  function Capitalize(s: string): (r: string)
    ensures |r| == |s|
    ensures s != [] ==> r[0] == UpperChar(s[0])
    ensures forall i :: 1 <= i < |s| ==> r[i] == LowerChar(s[i])
  {
    if s == [] then [] else [UpperChar(s[0])] + Lower(s[1..])
  }

  /** Capitalizing a capitalized string changes nothing. */
  lemma CapitalizeIdempotent(s: string)
    ensures Capitalize(Capitalize(s)) == Capitalize(s)
  {
    var c := Capitalize(s);
    assert forall i :: 1 <= i < |s| ==> LowerChar(c[i]) == c[i];
  }

  /** `s.slice(0, end)`: a negative end counts back from the end of the string, and both ends are clamped. */
  function SliceTo(s: string, end: int): (r: string)
    ensures 0 <= end <= |s| ==> r == s[..end]
    ensures end > |s| ==> r == s
    ensures end < 0 && -end <= |s| ==> r == s[..|s| + end]
    ensures end < 0 && -end > |s| ==> r == []
  {
    if end >= |s| then s
    else if end >= 0 then s[..end]
    else if |s| + end >= 0 then s[..|s| + end]
    else []
  }

  /** `truncate(str, length)`: the string itself when it is not longer than
      `length`, otherwise its slice up to `length` followed by "...". */
  function Truncate(s: string, length: int): (r: string)
    ensures |s| <= length ==> r == s
    ensures 0 <= length < |s| ==> |r| == length + 3 && r[..length] == s[..length] && r[length..] == "..."
    ensures length < 0 ==> r == SliceTo(s, length) + "..."
  {
    if |s| <= length then s else SliceTo(s, length) + "..."
  }

  /** A negative length is not rejected: it drops that many characters from
      the end before the ellipsis, so the result can be longer than the input. */
  lemma TruncateNegativeLength()
    ensures Truncate("abcdef", -2) == "abcd..."
    ensures Truncate("ab", -5) == "..."
    ensures |Truncate("abc", -1)| > |"abc"|
  {
  }

  /** No white space and no '@': the class `[^\s@]`. */
  predicate NoSpaceOrAt(t: string) {
    forall k :: 0 <= k < |t| ==> !IsWhitespace(t[k]) && t[k] != '@'
  }

  /** `[^\s@]+`. */
  predicate Segment(t: string) {
    |t| > 0 && NoSpaceOrAt(t)
  }

  /** The email pattern `^[^\s@]+@[^\s@]+\.[^\s@]+$`, read off the regular
      expression: three segments joined by '@' at `i` and '.' at `j`. */
  ghost predicate MatchesEmailPattern(s: string) {
    exists i, j :: 0 <= i < j < |s| && s[i] == '@' && s[j] == '.'
      && Segment(s[..i]) && Segment(s[i + 1..j]) && Segment(s[j + 1..])
  }

  /** A domain part the pattern accepts: no white space or '@', and a '.'
      that is neither its first nor its last character. */
  predicate ValidDomain(d: string) {
    NoSpaceOrAt(d) && exists j :: 0 < j < |d| - 1 && d[j] == '.'
  }

  /** `isValidEmail`: one '@' with a non-empty local part before it, and a
      domain after it that has a '.' which is neither its first nor its last
      character; no white space anywhere. */
  function IsValidEmail(email: string): (b: bool)
    ensures b <==> MatchesEmailPattern(email)
  {
    EmailPartsMatch(email);
    PatternMatchesParts(email);
    var at := IndexOf(email, '@');
    at < |email| && 0 < at && NoSpaceOrAt(email[..at]) && ValidDomain(email[at + 1..])
  }

  /** Split at the first '@', a valid local part and domain match the pattern. */
  lemma {:induction false} EmailPartsMatch(email: string)
    ensures var at := IndexOf(email, '@');
      at < |email| && 0 < at && NoSpaceOrAt(email[..at]) && ValidDomain(email[at + 1..]) ==> MatchesEmailPattern(email)
  {
    var at := IndexOf(email, '@');
    if at < |email| && 0 < at && NoSpaceOrAt(email[..at]) && ValidDomain(email[at + 1..]) {
      var d := email[at + 1..];
      var j :| 0 < j < |d| - 1 && d[j] == '.';
      var dot := at + 1 + j;
      assert email[at + 1..dot] == d[..j];
      assert email[dot + 1..] == d[j + 1..];
      assert Segment(d[..j]) by {
        assert forall k :: 0 <= k < j ==> d[..j][k] == d[k];
      }
      assert Segment(d[j + 1..]) by {
        var tail := d[j + 1..];
        assert forall k :: 0 <= k < |tail| ==> tail[k] == d[j + 1 + k];
      }
      assert email[dot] == '.';
      assert Segment(email[..at]) && Segment(email[at + 1..dot]) && Segment(email[dot + 1..]);
    }
  }

  /** Two runs of `[^\s@]` joined by a '.' are one run. */
  lemma {:induction false} NoSpaceOrAtJoin(a: string, b: string)
    requires NoSpaceOrAt(a) && NoSpaceOrAt(b)
    ensures NoSpaceOrAt(a + "." + b)
  {
    var t := a + "." + b;
    forall k | 0 <= k < |t|
      ensures !IsWhitespace(t[k]) && t[k] != '@'
    {
      if k < |a| {
        assert t[k] == a[k];
      } else if k > |a| {
        assert t[k] == b[k - |a| - 1];
      } else {
        assert t[k] == '.';
      }
    }
  }

  /** The first '@' is at `i` when `s[i]` is one and none comes before it. */
  lemma IndexOfFirst(s: string, i: nat)
    requires i < |s| && s[i] == '@' && NoSpaceOrAt(s[..i])
    ensures IndexOf(s, '@') == i
  {
    assert forall k :: 0 <= k < i ==> s[..i][k] == s[k];
  }

  /** A match of the pattern is split at the first '@' into a valid local part and domain. */
  lemma {:induction false} PatternMatchesParts(email: string)
    ensures var at := IndexOf(email, '@');
      MatchesEmailPattern(email) ==> at < |email| && 0 < at && NoSpaceOrAt(email[..at]) && ValidDomain(email[at + 1..])
  {
    if MatchesEmailPattern(email) {
      var i, j :| 0 <= i < j < |email| && email[i] == '@' && email[j] == '.'
        && Segment(email[..i]) && Segment(email[i + 1..j]) && Segment(email[j + 1..]);
      MatchAtParts(email, i, j);
    }
  }

  /** The match with '@' at `i` and '.' at `j`, split into local part and domain. */
  lemma {:induction false} MatchAtParts(email: string, i: nat, j: nat)
    requires i < j < |email| && email[i] == '@' && email[j] == '.'
    requires Segment(email[..i]) && Segment(email[i + 1..j]) && Segment(email[j + 1..])
    ensures IndexOf(email, '@') == i
    ensures NoSpaceOrAt(email[i + 1..]) && 0 < j - i - 1 < |email[i + 1..]| - 1 && email[i + 1..][j - i - 1] == '.'
  {
    IndexOfFirst(email, i);
    var left, right := email[i + 1..j], email[j + 1..];
    assert email[i + 1..] == left + "." + right;
    NoSpaceOrAtJoin(left, right);
  }

  /** `isValidPassword`: at least 8 characters. */
  predicate IsValidPassword(password: string) {
    |password| >= 8
  }

  /** The threshold is eight characters, whatever they are: white space counts. */
  lemma PasswordThreshold(password: string, extra: string)
    ensures IsValidPassword(password) ==> IsValidPassword(password + extra)
    ensures IsValidPassword("        ") && !IsValidPassword("1234567")
  {
  }

  // ---------------------------------------------------------------------
  // Records

  /** A plain object used as a dictionary: its own keys in enumeration order, and their values. */
  datatype Record<V> = Record(keys: seq<string>, entries: map<string, V>)

  /** The keys are listed once each, and exactly the keys of `entries`. */
  ghost predicate WellFormed<V>(r: Record<V>) {
    && Distinct(r.keys)
    && (forall k :: k in r.entries <==> k in r.keys)
  }

  /** `{}`. */
  function EmptyRecord<V>(): (r: Record<V>)
    ensures WellFormed(r) && r.entries == map[]
  {
    Record([], map[])
  }

  /** `r[k] = v`: an existing key keeps its place, and a new key goes to the
      end of the order. (JavaScript lists integer-like keys first, in
      ascending order; this order does not.) */
  function Assign<V>(r: Record<V>, k: string, v: V): (result: Record<V>)
    requires WellFormed(r)
    ensures WellFormed(result)
    ensures result.entries == r.entries[k := v]
    ensures k in r.entries ==> result.keys == r.keys
    ensures k !in r.entries ==> result.keys == r.keys + [k]
  {
    if k in r.entries then Record(r.keys, r.entries[k := v]) else Record(r.keys + [k], r.entries[k := v])
  }

  /** `delete r[k]`: the key leaves the enumeration order and the map. */
  function Delete<V>(r: Record<V>, k: string): (result: Record<V>)
    requires WellFormed(r)
    ensures WellFormed(result)
    ensures result.entries == r.entries - {k}
    ensures result.keys == Filter(r.keys, (x: string) => x != k)
  {
    var keys := Filter(r.keys, (x: string) => x != k);
    DistinctFilter(r.keys, (x: string) => x != k);
    Record(keys, r.entries - {k})
  }

  // ---------------------------------------------------------------------
  // groupBy

  /** The groups of the items so far: the reduction `groupBy` performs, item by item. */
  function Grouped<T>(items: seq<T>, keyOf: T -> string): (groups: Record<seq<T>>)
    ensures WellFormed(groups)
  {
    if items == [] then EmptyRecord()
    else
      var groups := Grouped(items[..|items| - 1], keyOf);
      var item := items[|items| - 1];
      var group := keyOf(item);
      Assign(groups, group, (if group in groups.entries then groups.entries[group] else []) + [item])
  }

  /** The names a plain `{}` inherits from `Object.prototype`. Reading one of
      them on the accumulator gives a function or the prototype itself, never
      an array. */
  const InheritedKeys: set<string> := {
    "constructor", "hasOwnProperty", "isPrototypeOf", "propertyIsEnumerable",
    "toLocaleString", "toString", "valueOf", "__proto__",
    "__defineGetter__", "__defineSetter__", "__lookupGetter__", "__lookupSetter__"}

  /** What `groupBy` returns, or `None` where it throws: when an item's key is
      an inherited name, `groups[group] || []` yields that inherited value,
      which is truthy, and calling `push` on it is a TypeError. */
  function GroupByResult<T>(items: seq<T>, keyOf: T -> string): (r: Option<Record<seq<T>>>)
    ensures r.None? <==> exists i :: 0 <= i < |items| && keyOf(items[i]) in InheritedKeys
    ensures r.Some? ==> WellFormed(r.value) && forall k :: k in r.value.entries ==> k !in InheritedKeys
  {
    if exists i :: 0 <= i < |items| && keyOf(items[i]) in InheritedKeys then None
    else
      var groups := Grouped(items, keyOf);
      assert forall k :: k in groups.entries ==> k !in InheritedKeys by {
        forall k | k in groups.entries ensures k !in InheritedKeys {
          GroupedContents(items, keyOf, k);
        }
      }
      Some(groups)
  }

  /** `groupBy(array, key)`, with `keyOf(item)` standing for `String(item[key])`;
      `None` is the TypeError it throws at the first item with an inherited key. */
  method GroupBy<T>(items: seq<T>, keyOf: T -> string) returns (groups: Option<Record<seq<T>>>)
    ensures groups == GroupByResult(items, keyOf)
  {
    var acc := EmptyRecord();
    for i := 0 to |items|
      invariant acc == Grouped(items[..i], keyOf)
      invariant forall j :: 0 <= j < i ==> keyOf(items[j]) !in InheritedKeys
    {
      var group := keyOf(items[i]);
      if group in InheritedKeys {
        return None;
      }
      var existing := if group in acc.entries then acc.entries[group] else [];
      acc := Assign(acc, group, existing + [items[i]]);
      assert items[..i + 1][..i] == items[..i];
    }
    assert items[..|items|] == items;
    groups := Some(acc);
  }

  /** Each group holds exactly the items whose key names it, in input order,
      and a group exists exactly for the keys that occur. */
  lemma {:induction false} GroupedContents<T>(items: seq<T>, keyOf: T -> string, k: string)
    ensures var groups := Grouped(items, keyOf);
      && (k in groups.entries <==> exists i :: 0 <= i < |items| && keyOf(items[i]) == k)
      && (k in groups.entries ==> groups.entries[k] == Filter(items, (x: T) => keyOf(x) == k))
  {
    if items != [] {
      var init := items[..|items| - 1];
      var item := items[|items| - 1];
      GroupedContents(init, keyOf, k);
      FilterAppend(init, item, (x: T) => keyOf(x) == k);
      assert items == init + [item];
      if k !in Grouped(init, keyOf).entries {
        FilterNone(init, (x: T) => keyOf(x) == k);
      }
      assert forall i :: 0 <= i < |init| ==> init[i] == items[i];
    }
  }

  /** The total size of the groups listed in `keys`. */
  function GroupSizes<T>(keys: seq<string>, entries: map<string, seq<T>>): nat
    requires forall k :: k in keys ==> k in entries
  {
    if keys == [] then 0 else |entries[keys[0]]| + GroupSizes(keys[1..], entries)
  }

  /** Appending to one listed group adds one to the total. */
  lemma {:induction false} GroupSizesGrow<T>(keys: seq<string>, entries: map<string, seq<T>>, k: string, item: T)
    requires forall k :: k in keys ==> k in entries
    requires k in entries
    requires forall i, j :: 0 <= i < j < |keys| ==> keys[i] != keys[j]
    ensures GroupSizes(keys, entries[k := entries[k] + [item]]) == GroupSizes(keys, entries) + (if k in keys then 1 else 0)
  {
    if keys != [] {
      GroupSizesGrow(keys[1..], entries, k, item);
      assert keys[0] == k ==> k !in keys[1..];
    }
  }

  /** The total size of the groups over keys none of which is `k`, when `k` is added to the map. */
  lemma {:induction false} GroupSizesFresh<T>(keys: seq<string>, entries: map<string, seq<T>>, k: string, group: seq<T>)
    requires forall k :: k in keys ==> k in entries
    requires k !in keys
    ensures GroupSizes(keys, entries[k := group]) == GroupSizes(keys, entries)
  {
    if keys != [] {
      GroupSizesFresh(keys[1..], entries, k, group);
    }
  }

  /** The total size of the groups over the key order splits at the end. */
  lemma {:induction false} GroupSizesAppend<T>(keys: seq<string>, k: string, entries: map<string, seq<T>>)
    requires forall x :: x in keys + [k] ==> x in entries
    ensures GroupSizes(keys + [k], entries) == GroupSizes(keys, entries) + |entries[k]|
  {
    if keys != [] {
      assert (keys + [k])[1..] == keys[1..] + [k];
      GroupSizesAppend(keys[1..], k, entries);
    }
  }

  /** Every item lands in exactly one group: the group sizes sum to the number of items. */
  lemma {:induction false} GroupedSizesSum<T>(items: seq<T>, keyOf: T -> string)
    ensures var groups := Grouped(items, keyOf);
      GroupSizes(groups.keys, groups.entries) == |items|
  {
    if items != [] {
      var init := items[..|items| - 1];
      var item := items[|items| - 1];
      var groups := Grouped(init, keyOf);
      var k := keyOf(item);
      GroupedSizesSum(init, keyOf);
      if k in groups.entries {
        GroupSizesGrow(groups.keys, groups.entries, k, item);
      } else {
        var entries := groups.entries[k := [] + [item]];
        assert Grouped(items, keyOf) == Record(groups.keys + [k], entries);
        GroupSizesFresh(groups.keys, groups.entries, k, [] + [item]);
        GroupSizesAppend(groups.keys, k, entries);
      }
    }
  }

  // ---------------------------------------------------------------------
  // omit and pick

  /** What `omit` returns: the object without the listed keys, in its own order. */
  ghost function Omitted<V>(obj: Record<V>, keys: seq<string>): (r: Record<V>)
    ensures WellFormed(obj) ==> WellFormed(r)
  {
    var r := Record(Filter(obj.keys, (k: string) => k !in keys), map k | k in obj.entries && k !in keys :: obj.entries[k]);
    if WellFormed(obj) then
      DistinctFilter(obj.keys, (k: string) => k !in keys);
      r
    else r
  }

  /** Deleting one more key from an omitted object omits that key too. */
  lemma OmittedStep<V>(obj: Record<V>, keys: seq<string>, i: nat)
    requires WellFormed(obj) && i < |keys|
    ensures Delete(Omitted(obj, keys[..i]), keys[i]) == Omitted(obj, keys[..i + 1])
  {
    var before := Omitted(obj, keys[..i]);
    var after := Delete(before, keys[i]);
    assert forall k :: k in keys[..i + 1] <==> k in keys[..i] || k == keys[i] by {
      assert keys[..i + 1] == keys[..i] + [keys[i]];
    }
    FilterTwice(obj.keys, (k: string) => k !in keys[..i], (x: string) => x != keys[i], (k: string) => k !in keys[..i + 1]);
    assert after.entries == Omitted(obj, keys[..i + 1]).entries;
  }

  /** `omit(obj, keys)`: copy the object, then delete each listed key. The
      argument is a value, so the caller's object is untouched. */
  method Omit<V>(obj: Record<V>, keys: seq<string>) returns (result: Record<V>)
    requires WellFormed(obj)
    ensures result == Omitted(obj, keys)
    ensures WellFormed(result)
  {
    result := obj;
    OmitNothing(obj);
    assert keys[..0] == [];
    for i := 0 to |keys|
      invariant result == Omitted(obj, keys[..i])
      invariant WellFormed(result)
    {
      OmittedStep(obj, keys, i);
      result := Delete(result, keys[i]);
    }
    assert keys[..|keys|] == keys;
  }

  /** Keep the first occurrence of each element. */
  function Dedup(s: seq<string>): (r: seq<string>)
    ensures forall x :: x in r <==> x in s
    ensures Distinct(r)
  {
    if s == [] then []
    else
      var d := Dedup(s[..|s| - 1]);
      var x := s[|s| - 1];
      assert forall y :: y in s <==> y in s[..|s| - 1] || y == x by {
        assert s == s[..|s| - 1] + [x];
      }
      if x in d then d else d + [x]
  }

  /** The test `key in obj`, own keys only. */
  function PresentIn<V>(obj: Record<V>): string -> bool {
    (k: string) => k in obj.entries
  }

  /** The values `pick` copies: those of the listed keys the object has. */
  function PickedEntries<V>(obj: Record<V>, keys: seq<string>): (m: map<string, V>)
    ensures forall k :: k in m <==> k in keys && k in obj.entries
    ensures forall k :: k in m ==> m[k] == obj.entries[k]
  {
    map k | k in keys && k in obj.entries :: obj.entries[k]
  }

  /** What `pick` returns: the listed keys the object has (Object.prototype
      aside), in the order they are first listed, with the object's values. */
  ghost function Picked<V>(obj: Record<V>, keys: seq<string>): (r: Record<V>)
    ensures WellFormed(r)
  {
    var f := Filter(keys, PresentIn(obj));
    var r := Record(Dedup(f), PickedEntries(obj, keys));
    assert forall k :: k in r.entries <==> k in r.keys by {
      forall k
        ensures k in r.entries <==> k in r.keys
      {
        if k in r.entries {
          var i :| 0 <= i < |keys| && keys[i] == k;
          assert k in f;
        }
      }
    }
    r
  }

  /** `Dedup` of a longer sequence keeps the first occurrence of the new element. */
  lemma DedupSnoc(s: seq<string>, x: string)
    ensures Dedup(s + [x]) == if x in Dedup(s) then Dedup(s) else Dedup(s) + [x]
  {
    assert (s + [x])[..|s + [x]| - 1] == s;
  }

  /** The keys `pick` lists after one more listed key. */
  lemma {:induction false} PickedKeysStep<V>(obj: Record<V>, keys: seq<string>, k: string)
    ensures Picked(obj, keys + [k]).keys ==
      if k !in obj.entries || k in Picked(obj, keys).keys then Picked(obj, keys).keys else Picked(obj, keys).keys + [k]
  {
    FilterAppend(keys, k, PresentIn(obj));
    var f := Filter(keys, PresentIn(obj));
    if k in obj.entries {
      DedupSnoc(f, k);
    } else {
      assert Filter(keys + [k], PresentIn(obj)) == f;
    }
  }

  /** The values `pick` copies after one more listed key. */
  lemma {:induction false} PickedEntriesStep<V>(obj: Record<V>, keys: seq<string>, k: string)
    ensures PickedEntries(obj, keys + [k]) ==
      if k in obj.entries then PickedEntries(obj, keys)[k := obj.entries[k]] else PickedEntries(obj, keys)
  {
    assert forall x :: x in keys + [k] <==> x in keys || x == k;
  }

  /** Picking one more listed key assigns it when the object has it. */
  lemma {:induction false} PickedStep<V>(obj: Record<V>, keys: seq<string>, i: nat)
    requires i < |keys|
    ensures Picked(obj, keys[..i + 1]) ==
        if keys[i] in obj.entries then Assign(Picked(obj, keys[..i]), keys[i], obj.entries[keys[i]]) else Picked(obj, keys[..i])
  {
    assert keys[..i + 1] == keys[..i] + [keys[i]];
    PickedKeysStep(obj, keys[..i], keys[i]);
    PickedEntriesStep(obj, keys[..i], keys[i]);
  }

  /** `pick(obj, keys)`: start from `{}` and copy each listed key the object has. */
  method Pick<V>(obj: Record<V>, keys: seq<string>) returns (result: Record<V>)
    ensures result == Picked(obj, keys)
    ensures WellFormed(result)
  {
    result := EmptyRecord();
    assert keys[..0] == [];
    for i := 0 to |keys|
      invariant result == Picked(obj, keys[..i])
      invariant WellFormed(result)
    {
      PickedStep(obj, keys, i);
      var k := keys[i];
      if k in obj.entries {
        result := Assign(result, k, obj.entries[k]);
      }
    }
    assert keys[..|keys|] == keys;
  }

  /** `omit` and `pick` with the same keys split the object: no key in both,
      and together exactly the object's entries. */
  lemma OmitPickPartition<V>(obj: Record<V>, keys: seq<string>)
    ensures Omitted(obj, keys).entries.Keys !! Picked(obj, keys).entries.Keys
    ensures Omitted(obj, keys).entries + Picked(obj, keys).entries == obj.entries
  {
  }

  /** Omitting nothing copies the object, keys and order included. */
  lemma OmitNothing<V>(obj: Record<V>)
    ensures Omitted(obj, []) == obj
  {
    FilterAll(obj.keys, (k: string) => k !in []);
  }

  /** Picking every key of a well-formed object copies it, keys and order included. */
  lemma {:induction false} PickEverything<V>(obj: Record<V>)
    requires WellFormed(obj)
    ensures Picked(obj, obj.keys) == obj
  {
    var p := Picked(obj, obj.keys);
    assert p.keys == obj.keys by {
      assert forall i :: 0 <= i < |obj.keys| ==> PresentIn(obj)(obj.keys[i]);
      FilterAll(obj.keys, PresentIn(obj));
      DedupDistinct(obj.keys);
    }
    assert p.entries == obj.entries by {
      PickAllEntries(obj);
    }
    assert p == Record(p.keys, p.entries);
    assert obj == Record(obj.keys, obj.entries);
  }

  /** Every value of a well-formed object is picked by its own key list. */
  lemma PickAllEntries<V>(obj: Record<V>)
    requires WellFormed(obj)
    ensures PickedEntries(obj, obj.keys) == obj.entries
  {
    var entries := PickedEntries(obj, obj.keys);
    assert forall k :: k in entries <==> k in obj.entries;
  }

  /** A sequence without repetitions is its own `Dedup`. */
  lemma {:induction false} DedupDistinct(s: seq<string>)
    requires Distinct(s)
    ensures Dedup(s) == s
  {
    if s != [] {
      DedupDistinct(s[..|s| - 1]);
      assert s[|s| - 1] !in s[..|s| - 1];
      assert s == s[..|s| - 1] + [s[|s| - 1]];
    }
  }
}
