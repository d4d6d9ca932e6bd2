/** Python's string operations on `seq<char>`: stripping, splitting,
    partitioning, code-point ordering and `sorted`. */
module Text {

  /** The characters `str.strip` removes. */
  predicate IsSpace(c: char) {
    || '\U{9}' <= c <= '\U{d}'
    || '\U{1c}' <= c <= '\U{20}'
    || c == '\U{85}' || c == '\U{a0}' || c == '\U{1680}'
    || '\U{2000}' <= c <= '\U{200a}'
    || c == '\U{2028}' || c == '\U{2029}' || c == '\U{202f}'
    || c == '\U{205f}' || c == '\U{3000}'
  }

  predicate SpaceFree(s: string) {
    forall c | c in s :: !IsSpace(c)
  }

  function StripLeft(s: string): string {
    if s != [] && IsSpace(s[0]) then StripLeft(s[1..]) else s
  }

  function StripRight(s: string): string {
    if s != [] && IsSpace(s[|s| - 1]) then StripRight(s[..|s| - 1]) else s
  }

  function Strip(s: string): string {
    StripRight(StripLeft(s))
  }

  function StripTrailing(s: string, c: char): string {
    if s != [] && s[|s| - 1] == c then StripTrailing(s[..|s| - 1], c) else s
  }

  function Replace(s: string, from: char, to: char): string {
    seq(|s|, i requires 0 <= i < |s| => if s[i] == from then to else s[i])
  }

  /** `str.split(c)`: empty components are kept. */
  function Split(s: string, c: char): (parts: seq<string>)
    ensures |parts| >= 1
  {
    if s == [] then [[]]
    else if s[0] == c then [[]] + Split(s[1..], c)
    else var rest := Split(s[1..], c); [[s[0]] + rest[0]] + rest[1..]
  }

  function Join(parts: seq<string>, c: char): string {
    if parts == [] then []
    else if |parts| == 1 then parts[0]
    else parts[0] + [c] + Join(parts[1..], c)
  }

  /** `str.partition(c)` as (before, found, after). */
  function Partition(s: string, c: char): (string, bool, string) {
    if s == [] then ([], false, [])
    else if s[0] == c then ([], true, s[1..])
    else var (before, found, after) := Partition(s[1..], c); ([s[0]] + before, found, after)
  }

  // ---- Stripping -------------------------------------------------------

  lemma {:induction false} StripKeeps(s: string)
    requires s == [] || (!IsSpace(s[0]) && !IsSpace(s[|s| - 1]))
    ensures Strip(s) == s
  {
    assert StripLeft(s) == s;
  }

  lemma {:induction false} StripRightIsPrefix(s: string)
    ensures StripRight(s) <= s
    ensures StripRight(s) == [] || !IsSpace(StripRight(s)[|StripRight(s)| - 1])
  {
    if s != [] && IsSpace(s[|s| - 1]) {
      StripRightIsPrefix(s[..|s| - 1]);
    }
  }

  lemma {:induction false} StripLeftIsSuffix(s: string)
    ensures |StripLeft(s)| <= |s| && StripLeft(s) == s[|s| - |StripLeft(s)|..]
    ensures StripLeft(s) == [] || !IsSpace(StripLeft(s)[0])
  {
    if s != [] && IsSpace(s[0]) {
      StripLeftIsSuffix(s[1..]);
    }
  }

  lemma {:induction false} StripShortens(s: string)
    requires s != [] && (IsSpace(s[0]) || IsSpace(s[|s| - 1]))
    ensures |Strip(s)| < |s|
  {
    StripLeftIsSuffix(s);
    StripRightIsPrefix(StripLeft(s));
    if IsSpace(s[0]) {
      StripLeftIsSuffix(s[1..]);
    } else {
      StripRightIsPrefix(s[..|s| - 1]);
    }
  }

  lemma StripMembers(s: string)
    ensures forall c | c in Strip(s) :: c in s
  {
    StripLeftIsSuffix(s);
    StripRightIsPrefix(StripLeft(s));
    var l, t := StripLeft(s), Strip(s);
    forall i | 0 <= i < |t| ensures t[i] in s {
      assert t[i] == l[i] == s[|s| - |l| + i];
    }
  }

  lemma {:induction false} StripTrailingIsPrefix(s: string, c: char)
    ensures StripTrailing(s, c) <= s
    ensures var t := StripTrailing(s, c); t == [] || t[|t| - 1] != c
  {
    if s != [] && s[|s| - 1] == c {
      StripTrailingIsPrefix(s[..|s| - 1], c);
    }
  }

  // ---- Partition and split ---------------------------------------------

  lemma {:induction false} PartitionFound(a: string, c: char, b: string)
    requires c !in a
    ensures Partition(a + [c] + b, c) == (a, true, b)
  {
    if a == [] {
      assert a + [c] + b == [c] + b;
    } else {
      PartitionFound(a[1..], c, b);
      assert (a + [c] + b)[1..] == a[1..] + [c] + b;
      assert [a[0]] + a[1..] == a;
    }
  }

  lemma {:induction false} PartitionAbsent(a: string, c: char)
    requires c !in a
    ensures Partition(a, c) == (a, false, [])
  {
    if a != [] {
      PartitionAbsent(a[1..], c);
      assert [a[0]] + a[1..] == a;
    }
  }

  lemma {:induction false} PartitionShape(s: string, c: char)
    ensures var (a, found, b) := Partition(s, c);
            c !in a && s == (if found then a + [c] + b else a) && (!found ==> b == [])
  {
    if s != [] && s[0] != c {
      PartitionShape(s[1..], c);
      var (a, found, b) := Partition(s[1..], c);
      assert s == [s[0]] + s[1..];
    } else if s != [] {
      assert s == [] + [c] + s[1..];
    }
  }

  lemma {:induction false} SplitAbsent(a: string, c: char)
    requires c !in a
    ensures Split(a, c) == [a]
  {
    if a != [] {
      SplitAbsent(a[1..], c);
      assert [a[0]] + a[1..] == a;
    }
  }

  lemma {:induction false} SplitCons(a: string, c: char, b: string)
    requires c !in a
    ensures Split(a + [c] + b, c) == [a] + Split(b, c)
  {
    if a == [] {
      assert a + [c] + b == [c] + b;
    } else {
      SplitCons(a[1..], c, b);
      assert (a + [c] + b)[1..] == a[1..] + [c] + b;
      assert [a[0]] + a[1..] == a;
    }
  }

  lemma {:induction false} SplitPartsAvoid(s: string, c: char)
    ensures forall p | p in Split(s, c) :: c !in p
    ensures forall p, x | p in Split(s, c) && x in p :: x in s
  {
    if s != [] {
      SplitPartsAvoid(s[1..], c);
    }
  }

  lemma {:induction false} SplitJoin(parts: seq<string>, c: char)
    requires parts != [] && forall p | p in parts :: c !in p
    ensures Split(Join(parts, c), c) == parts
  {
    if |parts| == 1 {
      SplitAbsent(parts[0], c);
    } else {
      SplitJoin(parts[1..], c);
      SplitCons(parts[0], c, Join(parts[1..], c));
    }
  }

  // ---- Code-point order and `sorted` -----------------------------------

  predicate LexLe(a: string, b: string) {
    a == [] || (b != [] && (a[0] < b[0] || (a[0] == b[0] && LexLe(a[1..], b[1..]))))
  }

  /** The order of strings: a prefix first, else by the first character that differs. */
  lemma {:induction false} LexLeMeans(a: string, b: string)
    ensures LexLe(a, b) <==>
              a <= b || exists k :: 0 <= k < |a| && k < |b| && a[..k] == b[..k] && a[k] < b[k]
  {
    if a != [] && b != [] && a[0] == b[0] {
      LexLeMeans(a[1..], b[1..]);
      assert a == [a[0]] + a[1..] && b == [b[0]] + b[1..];
      if k :| 0 <= k < |a[1..]| && k < |b[1..]| && a[1..][..k] == b[1..][..k] && a[1..][k] < b[1..][k] {
        assert a[..k + 1] == [a[0]] + a[1..][..k] && b[..k + 1] == [b[0]] + b[1..][..k];
        assert a[k + 1] < b[k + 1];
      }
      if k :| 0 <= k < |a| && k < |b| && a[..k] == b[..k] && a[k] < b[k] {
        assert k > 0;
        assert a[1..][..k - 1] == a[..k][1..] == b[..k][1..] == b[1..][..k - 1];
        assert a[1..][k - 1] < b[1..][k - 1];
      }
    } else if a != [] && b != [] && a[0] < b[0] {
      assert a[..0] == b[..0];
    }
  }

  lemma {:induction false} LexLeTotal(a: string, b: string)
    ensures LexLe(a, b) || LexLe(b, a)
  {
    if a != [] && b != [] && a[0] == b[0] {
      LexLeTotal(a[1..], b[1..]);
    }
  }

  lemma {:induction false} LexLeAntisymmetric(a: string, b: string)
    requires LexLe(a, b) && LexLe(b, a)
    ensures a == b
  {
    if a != [] && b != [] {
      LexLeAntisymmetric(a[1..], b[1..]);
      assert a == [a[0]] + a[1..] && b == [b[0]] + b[1..];
    }
  }

  lemma {:induction false} LexLeTransitive(a: string, b: string, c: string)
    requires LexLe(a, b) && LexLe(b, c)
    ensures LexLe(a, c)
  {
    if a != [] && a[0] == b[0] == c[0] {
      LexLeTransitive(a[1..], b[1..], c[1..]);
    }
  }

  predicate LeastOf(x: string, s: seq<string>) {
    forall y | y in s :: LexLe(x, y)
  }

  predicate Ascending(s: seq<string>) {
    s == [] || (LeastOf(s[0], s[1..]) && Ascending(s[1..]))
  }

  function Insert(x: string, s: seq<string>): seq<string> {
    if s == [] || LexLe(x, s[0]) then [x] + s else [s[0]] + Insert(x, s[1..])
  }

  /** `sorted` on strings. */
  function Sorted(s: seq<string>): seq<string> {
    if s == [] then [] else Insert(s[0], Sorted(s[1..]))
  }

  predicate Distinct<T(==)>(s: seq<T>) {
    forall i, j | 0 <= i < j < |s| :: s[i] != s[j]
  }

  lemma {:induction false} InsertMembers(x: string, s: seq<string>)
    ensures |Insert(x, s)| == |s| + 1
    ensures forall y :: y in Insert(x, s) <==> y == x || y in s
    ensures x !in s && Distinct(s) ==> Distinct(Insert(x, s))
  {
    if s != [] && !LexLe(x, s[0]) {
      InsertMembers(x, s[1..]);
      assert s == [s[0]] + s[1..];
      if x !in s && Distinct(s) {
        assert s[0] !in s[1..];
        assert s[0] !in Insert(x, s[1..]);
      }
    }
  }

  lemma {:induction false} InsertAscends(x: string, s: seq<string>)
    requires Ascending(s)
    ensures Ascending(Insert(x, s))
  {
    if s == [] {
    } else if LexLe(x, s[0]) {
      forall y | y in s ensures LexLe(x, y) {
        if y != s[0] {
          assert y in s[1..];
          LexLeTransitive(x, s[0], y);
        }
      }
    } else {
      InsertAscends(x, s[1..]);
      InsertMembers(x, s[1..]);
      LexLeTotal(x, s[0]);
    }
  }

  lemma {:induction false} SortedMembers(s: seq<string>)
    ensures |Sorted(s)| == |s|
    ensures forall x :: x in Sorted(s) <==> x in s
    ensures Distinct(s) ==> Distinct(Sorted(s))
    ensures Ascending(Sorted(s))
  {
    if s != [] {
      SortedMembers(s[1..]);
      InsertMembers(s[0], Sorted(s[1..]));
      InsertAscends(s[0], Sorted(s[1..]));
      assert s == [s[0]] + s[1..];
      if Distinct(s) {
        assert s[0] !in s[1..];
      }
    }
  }

  lemma {:induction false} AscendingUnique(s: seq<string>, t: seq<string>)
    requires Ascending(s) && Ascending(t) && Distinct(s) && Distinct(t)
    requires forall x :: x in s <==> x in t
    ensures s == t
  {
    assert (forall i | 0 <= i < |s| :: s[i] in t) && (forall i | 0 <= i < |t| :: t[i] in s);
    if s != [] {
      assert s[0] in t && t != [] && t[0] in s;
      assert s[0] == t[0] || s[0] in t[1..];
      assert t[0] == s[0] || t[0] in s[1..];
      if s[0] != t[0] {
        LexLeAntisymmetric(s[0], t[0]);
      }
      var s', t' := s[1..], t[1..];
      assert s[0] !in s' && t[0] !in t';
      forall x ensures x in s' <==> x in t' {
        assert x in s <==> x == s[0] || x in s';
        assert x in t <==> x == t[0] || x in t';
      }
      AscendingUnique(s', t');
      assert s == [s[0]] + s' && t == [t[0]] + t';
    }
  }
}
