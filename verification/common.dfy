/** Shared value types and the small string and list helpers that the game's
    Python code gets from its standard library (str.strip, str.lower,
    str.split, list.remove, list.index). */
module Common {

  datatype Option<T> = None | Some(value: T)

  /** Object identity.  The game uses `uuid4().hex` strings; only equality of
      uids is ever observed, so a natural number stands for one. */
  type Uid = nat

  /** Character ids are database row ids (player characters) or the
      derived id of a non-player character. */
  type CharId = int

  /** Items are immutable records; equality of two items is equality of
      their uid (the uid determines the rest). */
  datatype Item = Item(uid: Uid, name: string)

  /** The part of a weapon that combat reads: its name and attack bonus.
      The hit chance is a probability and is replaced by a caller-supplied
      hit/miss outcome. */
  datatype Weapon = Weapon(name: string, attackBonus: int)

  datatype Description = Description(short: string, long: string)

  // ---------------------------------------------------------------------
  // Characters and strings (str.isspace; ASCII view of str.lower/upper)
  // ---------------------------------------------------------------------

  /** The characters `str.isspace` accepts, which are the ones `strip()`
      and `split()` without arguments treat as whitespace: the ASCII
      controls 9-13 and 28-31, the space, and the Unicode separators. */
  predicate IsSpace(c: char) {
    || '\t' <= c <= '\r' || '\U{1C}' <= c <= ' '
    || c == '\U{85}' || c == '\U{A0}' || c == '\U{1680}' || '\U{2000}' <= c <= '\U{200A}'
    || c == '\U{2028}' || c == '\U{2029}' || c == '\U{202F}' || c == '\U{205F}' || c == '\U{3000}'
  }

  function LowerChar(c: char): char {
    if 'A' <= c <= 'Z' then (c as int + 32) as char else c
  }

  function UpperChar(c: char): char {
    if 'a' <= c <= 'z' then (c as int - 32) as char else c
  }

  function Lower(s: string): (r: string)
    ensures |r| == |s|
    ensures forall i :: 0 <= i < |s| ==> r[i] == LowerChar(s[i])
  {
    if s == [] then [] else [LowerChar(s[0])] + Lower(s[1..])
  }

  function Upper(s: string): (r: string)
    ensures |r| == |s|
    ensures forall i :: 0 <= i < |s| ==> r[i] == UpperChar(s[i])
  {
    if s == [] then [] else [UpperChar(s[0])] + Upper(s[1..])
  }

  /** Case-insensitive equality as `a.lower() == b.lower()`. */
  predicate EqualsIgnoreCase(a: string, b: string) {
    Lower(a) == Lower(b)
  }

  function TrimLeft(s: string): (r: string)
    ensures r == [] || !IsSpace(r[0])
    ensures |r| <= |s| && r == s[|s| - |r|..]
    ensures forall i :: 0 <= i < |s| - |r| ==> IsSpace(s[i])
  {
    if s != [] && IsSpace(s[0]) then TrimLeft(s[1..]) else s
  }

  function TrimRight(s: string): (r: string)
    ensures r == [] || !IsSpace(r[|r| - 1])
    ensures |r| <= |s| && r == s[..|r|]
    ensures forall i :: |r| <= i < |s| ==> IsSpace(s[i])
  {
    if s != [] && IsSpace(s[|s| - 1]) then TrimRight(s[..|s| - 1]) else s
  }

  /** `s.strip()` */
  function Strip(s: string): (r: string)
    ensures r == [] || (!IsSpace(r[0]) && !IsSpace(r[|r| - 1]))
  {
    TrimRight(TrimLeft(s))
  }

  /** Blank input in the sense of `not s.strip()`. */
  predicate IsBlank(s: string) {
    Strip(s) == []
  }

  /** Index of the first whitespace character of `s`, or |s|. */
  function FirstSpace(s: string): (k: nat)
    ensures k <= |s|
    ensures forall i :: 0 <= i < k ==> !IsSpace(s[i])
    ensures k < |s| ==> IsSpace(s[k])
  {
    if s == [] || IsSpace(s[0]) then 0 else 1 + FirstSpace(s[1..])
  }

  /** `s.split(None, 1)`: at most two parts; the first is the first
      whitespace-free word, the second the rest with its leading
      whitespace removed. */
  function Split1(s: string): (parts: seq<string>)
    ensures |parts| <= 2
    ensures parts == [] <==> TrimLeft(s) == []
    ensures |parts| == 2 ==> parts[1] != []
  {
    var t := TrimLeft(s);
    if t == [] then []
    else
      var k := FirstSpace(t);
      var rest := TrimLeft(t[k..]);
      if rest == [] then [t[..k]] else [t[..k], rest]
  }

  /** Lower-casing never turns a non-space into a space or back. */
  lemma LowerCharSpace(c: char)
    ensures IsSpace(LowerChar(c)) <==> IsSpace(c)
  {
  }

  /** Lower-casing a lower-cased string changes nothing. */
  lemma LowerIdempotent(s: string)
    ensures Lower(Lower(s)) == Lower(s)
  {
  }

  /** A string with no whitespace at either end is its own strip. */
  lemma StripTrimmed(s: string)
    requires s == [] || (!IsSpace(s[0]) && !IsSpace(s[|s| - 1]))
    ensures Strip(s) == s
  {
  }

  /** Lower-casing keeps a stripped string stripped, so
      `s.strip().lower()` is a fixed point of both operations. */
  lemma NormalisedIsFixed(raw: string)
    ensures Strip(Lower(Strip(raw))) == Lower(Strip(raw))
    ensures Lower(Lower(Strip(raw))) == Lower(Strip(raw))
  {
    var t := Strip(raw);
    if t != [] {
      LowerCharSpace(t[0]);
      LowerCharSpace(t[|t| - 1]);
    }
    StripTrimmed(Lower(t));
    LowerIdempotent(t);
  }

  /** `w.split(None, 1)` of a single word is that word. */
  lemma Split1Word(w: string)
    requires w != []
    requires forall i :: 0 <= i < |w| ==> !IsSpace(w[i])
    ensures Split1(w) == [w]
  {
    assert TrimLeft(w) == w;
    assert FirstSpace(w) == |w|;
    assert w[|w|..] == [] && TrimLeft(w[|w|..]) == [];
    assert w[..|w|] == w;
  }

  // ---------------------------------------------------------------------
  // Lists
  // ---------------------------------------------------------------------

  /** `list.remove(x)` for an `x` the caller has checked is present;
      leaves the list as it is when `x` is absent. */
  function RemoveFirst<T(==)>(s: seq<T>, x: T): (r: seq<T>)
    ensures x in s ==> |r| == |s| - 1
    ensures x !in s ==> r == s
  {
    if s == [] then []
    else
      assert s == [s[0]] + s[1..];
      if s[0] == x then s[1..] else [s[0]] + RemoveFirst(s[1..], x)
  }

  /** `sep.join(parts)`. */
  function Join(parts: seq<string>, sep: string): (r: string)
    ensures parts == [] ==> r == []
    ensures |parts| == 1 ==> r == parts[0]
  {
    if parts == [] then []
    else if |parts| == 1 then parts[0]
    else parts[0] + sep + Join(parts[1..], sep)
  }

  /** `list.index(x)`: the position of the first occurrence. */
  function IndexOf<T(==)>(s: seq<T>, x: T): (i: nat)
    requires x in s
    ensures i < |s| && s[i] == x
    ensures forall j :: 0 <= j < i ==> s[j] != x
  {
    if s[0] == x then 0 else 1 + IndexOf(s[1..], x)
  }

  lemma ModSmall(i: nat, n: nat)
    requires i < n
    ensures i % n == i
  {
  }

  /** Dropping position `i` of a sequence: the element at `idx != i` moves
      down by one exactly when it stood after `i`. */
  lemma DropKeeps<T>(a: seq<T>, i: nat, idx: nat)
    requires i < |a| && idx < |a| && i != idx
    ensures var idx' := if i < idx then idx - 1 else idx;
      idx' < |a| - 1 && (a[..i] + a[i + 1..])[idx'] == a[idx]
  {
  }

  /** Dropping the element between `pre` and `post` shifts every later
      position down by one. */
  lemma DropShifts<T>(pre: seq<T>, x: T, post: seq<T>, idx: nat)
    requires |pre| <= idx < |pre| + |post|
    ensures (pre + post)[idx] == (pre + [x] + post)[idx + 1]
  {
  }

  lemma MulBounds(n: int, d: int)
    requires n > 0
    ensures d <= -1 ==> n * d <= -n
    ensures d >= 2 ==> n * d >= 2 * n
  {
    if d <= -1 {
      assert n * d == -(n * (-d));
      assert n * (-d) >= n * 1;
    }
    if d >= 2 {
      assert n * d >= n * 2;
    }
  }

  /** Euclidean division is unique: `n * q + r` with `0 <= r < n` has
      quotient `q` and remainder `r`. */
  lemma ModUnique(x: int, n: int, q: int, r: int)
    requires n > 0 && 0 <= r < n && x == n * q + r
    ensures x % n == r && x / n == q
  {
    var d := x / n - q;
    assert x == n * (x / n) + x % n;
    assert n * d == n * (x / n) - n * q;
    assert n * d == r - x % n;
    MulBounds(n, d);
  }

  /** Stepping a residue: `((a mod n) + 1) mod n == (a + 1) mod n`. */
  lemma ModInc(a: int, n: int)
    requires n > 0
    ensures ((a % n) + 1) % n == (a + 1) % n
  {
    var q, r := a / n, a % n;
    assert a == n * q + r;
    if r + 1 < n {
      ModUnique(a + 1, n, q, r + 1);
      ModUnique(r + 1, n, 0, r + 1);
    } else {
      assert n * (q + 1) == n * q + n;
      ModUnique(a + 1, n, q + 1, 0);
      ModUnique(r + 1, n, 1, 0);
    }
  }

  lemma ModBound(i: nat, n: nat)
    requires n > 0
    ensures 0 <= i % n < n
  {
  }

  lemma SplitAt<T>(s: seq<T>, k: nat)
    requires k < |s|
    ensures s == s[..k] + [s[k]] + s[k + 1..]
  {
  }

  lemma {:induction false} RemoveFirstSplit<T>(s: seq<T>, x: T)
    requires x in s
    ensures RemoveFirst(s, x) == s[..IndexOf(s, x)] + s[IndexOf(s, x) + 1..]
  {
    if s[0] != x {
      RemoveFirstSplit(s[1..], x);
      assert s[1..][..IndexOf(s[1..], x)] == s[1..IndexOf(s, x)];
      assert s[1..][IndexOf(s[1..], x) + 1..] == s[IndexOf(s, x) + 1..];
    }
  }

  /** Items are identified by uid: `x in list` in the source compares uids. */
  predicate HasItem(items: seq<Item>, uid: Uid) {
    exists i :: 0 <= i < |items| && items[i].uid == uid
  }

  // ---------------------------------------------------------------------
  // Dictionaries with insertion order
  // ---------------------------------------------------------------------

  /** `order` lists every key of `m` exactly once: the iteration order of a
      Python dict. */
  ghost predicate DictOrder<K(!new), V>(order: seq<K>, m: map<K, V>) {
    && (forall i, j :: 0 <= i < j < |order| ==> order[i] != order[j])
    && (forall k :: k in order <==> k in m)
  }

  /** The order after `m[k] = v`: a new key goes last, an existing key keeps
      its place. */
  function SetKeyOrder<K, V>(order: seq<K>, m: map<K, V>, k: K): seq<K> {
    if k in m then order else order + [k]
  }

  lemma DictOrderSet<K(!new), V>(order: seq<K>, m: map<K, V>, k: K, v: V)
    requires DictOrder(order, m)
    ensures DictOrder(SetKeyOrder(order, m, k), m[k := v])
  {
  }

  /** Cutting position `k` out of a duplicate-free list leaves a
      duplicate-free list without `s[k]`. */
  lemma SpliceDistinct<T>(s: seq<T>, k: nat, r: seq<T>)
    requires k < |s| && r == s[..k] + s[k + 1..]
    requires forall i, j :: 0 <= i < j < |s| ==> s[i] != s[j]
    ensures forall i, j :: 0 <= i < j < |r| ==> r[i] != r[j]
    ensures forall y :: y in r <==> y in s && y != s[k]
  {
    forall a, b | 0 <= a < b < |r|
      ensures r[a] != r[b]
    {
      var a' := if a < k then a else a + 1;
      var b' := if b < k then b else b + 1;
      assert r[a] == s[a'] && r[b] == s[b'] && a' < b';
    }
    forall y
      ensures y in r <==> y in s && y != s[k]
    {
      if y in s && y != s[k] {
        var i :| 0 <= i < |s| && s[i] == y;
        if i < k { assert r[i] == y; } else { assert i > k; assert r[i - 1] == y; }
      }
      if y in r {
        var i :| 0 <= i < |r| && r[i] == y;
        if i < k { assert s[i] == y; } else { assert s[i + 1] == y; }
      }
    }
  }

  /** Removing one element from a duplicate-free list drops exactly that
      element and keeps the list duplicate-free. */
  lemma RemoveFirstKeepsDistinct<T>(s: seq<T>, x: T)
    requires forall i, j :: 0 <= i < j < |s| ==> s[i] != s[j]
    requires x in s
    ensures forall i, j :: 0 <= i < j < |RemoveFirst(s, x)| ==> RemoveFirst(s, x)[i] != RemoveFirst(s, x)[j]
    ensures forall y :: y in RemoveFirst(s, x) <==> y in s && y != x
  {
    RemoveFirstSplit(s, x);
    SpliceDistinct(s, IndexOf(s, x), RemoveFirst(s, x));
  }

  /** `del m[k]` (or `m.pop(k)`) removes the key from the order. */
  lemma DictOrderDelete<K(!new), V>(order: seq<K>, m: map<K, V>, k: K)
    requires DictOrder(order, m) && k in m
    ensures DictOrder(RemoveFirst(order, k), m - {k})
  {
    RemoveFirstKeepsDistinct(order, k);
  }

  /** `s[-n:]` when `s` is longer than `n`, else `s`: the `n` most recent
      entries of a log. */
  function KeepLast<T>(s: seq<T>, n: nat): (r: seq<T>)
    ensures |s| <= n ==> r == s
    ensures |s| > n ==> r == s[|s| - n..]
  {
    if |s| > n then s[|s| - n..] else s
  }

  /** The trimmed log has at most `n` entries, exactly `n` when there were
      more, and they are the last ones of the log, in order. */
  lemma KeepLastRecent<T>(s: seq<T>, n: nat)
    ensures |KeepLast(s, n)| == if |s| > n then n else |s|
    ensures s == s[..|s| - |KeepLast(s, n)|] + KeepLast(s, n)
  {
  }

  /** Trimming a log and then appending to it and trimming again keeps the
      same entries as trimming only once at the end: a log trimmed after
      every append always holds the most recent `n` entries of everything
      appended. */
  lemma KeepLastAppend<T>(s: seq<T>, t: seq<T>, n: nat)
    ensures KeepLast(KeepLast(s, n) + t, n) == KeepLast(s + t, n)
  {
  }
}
