/** Strings the way the document code handles them: white space, trimming, splitting and joining.
    A string is a sequence of code points. */
module Text {

  /** Stands for a value that may be missing (null or undefined in the source). */
  datatype Option<+T> = None | Some(value: T)

  /** The white space that both trim() and the regular-expression class "\s" recognise. */
  predicate IsSpace(c: char) {
    var n := c as int;
    || 9 <= n <= 13 || n == 32 || n == 0xA0 || n == 0x1680 || 0x2000 <= n <= 0x200A
    || n == 0x2028 || n == 0x2029 || n == 0x202F || n == 0x205F || n == 0x3000 || n == 0xFEFF
  }

  /** The line terminators, which the regular-expression dot does not match. */
  predicate IsLineTerminator(c: char) {
    c == '\n' || c == '\r' || c as int == 0x2028 || c as int == 0x2029
  }

  predicate DotOnly(s: string) {
    forall c <- s :: !IsLineTerminator(c)
  }

  predicate IsDigit(c: char) {
    '0' <= c <= '9'
  }

  predicate All(s: string, c: char) {
    forall i | 0 <= i < |s| :: s[i] == c
  }

  function Repeat(c: char, n: nat): (s: string)
    ensures |s| == n && All(s, c)
  {
    seq(n, _ => c)
  }

  function Max(a: nat, b: nat): nat {
    if a < b then b else a
  }

  // ---- Trimming ----

  function LeadingSpaces(s: string): (n: nat)
    ensures n <= |s|
    ensures forall i | 0 <= i < n :: IsSpace(s[i])
    ensures n < |s| ==> !IsSpace(s[n])
  {
    if s != "" && IsSpace(s[0]) then 1 + LeadingSpaces(s[1..]) else 0
  }

  function TrimStart(s: string): string {
    s[LeadingSpaces(s)..]
  }

  function TrimEnd(s: string): (t: string)
    ensures |t| <= |s| && t == s[..|t|]
    ensures forall i | |t| <= i < |s| :: IsSpace(s[i])
    ensures t != "" ==> !IsSpace(t[|t| - 1])
  {
    if s != "" && IsSpace(s[|s| - 1]) then TrimEnd(s[..|s| - 1]) else s
  }

  function Trim(s: string): string {
    TrimEnd(TrimStart(s))
  }

  predicate IsBlank(s: string) {
    Trim(s) == ""
  }

  /** Neither end is white space, so trimming changes nothing. */
  predicate Trimmed(s: string) {
    s != "" ==> !IsSpace(s[0]) && !IsSpace(s[|s| - 1])
  }

  lemma TrimOfTrimmed(s: string)
    requires Trimmed(s)
    ensures LeadingSpaces(s) == 0 && TrimStart(s) == s && TrimEnd(s) == s && Trim(s) == s
  {
  }

  lemma TrimIsTrimmed(s: string)
    ensures Trimmed(Trim(s))
  {
    var t := TrimStart(s);
    if t != "" {
      assert !IsSpace(t[0]);
    }
  }

  lemma BlankIsAllSpace(s: string)
    ensures IsBlank(s) <==> forall c <- s :: IsSpace(c)
  {
    var n := LeadingSpaces(s);
    if n < |s| {
      assert !IsSpace(s[n]) && s[n] in s;
      assert TrimStart(s)[0] == s[n];
    } else {
      assert forall i | 0 <= i < |s| :: IsSpace(s[i]);
    }
  }

  /** TrimEnd is determined by the place where the trailing white space starts. */
  lemma TrimEndAt(s: string, n: nat)
    requires n <= |s|
    requires forall i | n <= i < |s| :: IsSpace(s[i])
    requires n == 0 || !IsSpace(s[n - 1])
    ensures TrimEnd(s) == s[..n]
  {
    var t := TrimEnd(s);
    assert t != "" ==> t[|t| - 1] == s[|t| - 1];
  }

  lemma LeadingSpacesAt(s: string, n: nat)
    requires n <= |s|
    requires forall i | 0 <= i < n :: IsSpace(s[i])
    requires n == |s| || !IsSpace(s[n])
    ensures LeadingSpaces(s) == n
  {
  }

  /** Padding a trimmed text with white space on either side does not change its trim. */
  lemma TrimOfPadded(left: string, s: string, right: string)
    requires forall c <- left :: IsSpace(c)
    requires forall c <- right :: IsSpace(c)
    requires Trimmed(s)
    ensures Trim(left + s + right) == s
  {
    var all := left + s + right;
    if s == "" {
      assert forall c <- all :: IsSpace(c);
      BlankIsAllSpace(all);
    } else {
      LeadingSpacesAt(all, |left|);
      assert all[|left|..] == s + right;
      TrimEndAt(s + right, |s|);
    }
  }

  lemma TrimIsSlice(s: string) returns (i: nat)
    ensures i + |Trim(s)| <= |s| && s[i..i + |Trim(s)|] == Trim(s)
  {
    i := LeadingSpaces(s);
  }

  lemma BlankTrims(s: string)
    requires Trim(s) == ""
    ensures TrimStart(s) == "" && TrimEnd(s) == "" && forall c <- s :: IsSpace(c)
  {
    BlankIsAllSpace(s);
    assert forall i | 0 <= i < |s| :: IsSpace(s[i]);
    LeadingSpacesAt(s, |s|);
    TrimEndAt(s, 0);
  }

  /** A text is its trim between white space. */
  lemma Padding(s: string) returns (left: string, right: string)
    ensures (forall c <- left :: IsSpace(c)) && (forall c <- right :: IsSpace(c))
    ensures s == left + Trim(s) + right
    ensures TrimStart(s) == if Trim(s) == "" then "" else Trim(s) + right
    ensures TrimEnd(s) == if Trim(s) == "" then "" else left + Trim(s)
  {
    hide TrimEnd, LeadingSpaces;
    if Trim(s) == "" {
      BlankTrims(s);
      left, right := s, "";
    } else {
      var t := TrimStart(s);
      left, right := s[..LeadingSpaces(s)], t[|TrimEnd(t)|..];
      var n := |left| + |Trim(s)|;
      forall i | 0 <= i < |right| ensures IsSpace(right[i]) {
        assert right[i] == t[|Trim(s)| + i];
      }
      assert s == left + t && t == Trim(s) + right;
      assert s[..n] == left + Trim(s) && s[n..] == right;
      forall i | n <= i < |s| ensures IsSpace(s[i]) {
        assert s[i] == t[i - |left|];
      }
      assert s[n - 1] == Trim(s)[|Trim(s)| - 1];
      TrimEndAt(s, n);
    }
  }

  // ---- Splitting and joining ----

  /** One more character in front of an already split text. */
  function PushChar(c: char, parts: seq<string>, sep: char): (r: seq<string>)
    requires parts != []
    ensures r != []
  {
    if c == sep then [""] + parts else [[c] + parts[0]] + parts[1..]
  }

  /** What split(sep) gives for a one-character separator: never empty. */
  function Split(s: string, sep: char): (parts: seq<string>)
    ensures parts != []
    ensures forall p <- parts :: sep !in p
  {
    if s == "" then [""] else PushChar(s[0], Split(s[1..], sep), sep)
  }

  function Join(parts: seq<string>, sep: string): string {
    if |parts| == 0 then ""
    else if |parts| == 1 then parts[0]
    else parts[0] + sep + Join(parts[1..], sep)
  }

  /** filter(Boolean) on strings. */
  function NonEmpty(parts: seq<string>): seq<string> {
    if parts == [] then []
    else (if parts[0] == "" then [] else [parts[0]]) + NonEmpty(parts[1..])
  }

  lemma {:induction false} SplitNone(s: string, sep: char)
    requires sep !in s
    ensures Split(s, sep) == [s]
  {
    if s != "" {
      SplitNone(s[1..], sep);
      assert [s[0]] + s[1..] == s;
    }
  }

  lemma {:induction false} SplitFirst(a: string, b: string, sep: char)
    requires sep !in a
    ensures Split(a + [sep] + b, sep) == [a] + Split(b, sep)
  {
    var s := a + [sep] + b;
    if a == "" {
      assert s[1..] == b;
    } else {
      SplitFirst(a[1..], b, sep);
      assert s[1..] == a[1..] + [sep] + b;
      assert [a[0]] + a[1..] == a;
    }
  }

  lemma PushCharConcat(c: char, a: seq<string>, b: seq<string>, sep: char)
    requires a != []
    ensures PushChar(c, a + b, sep) == PushChar(c, a, sep) + b
  {
    assert (a + b)[1..] == a[1..] + b;
  }

  /** Splitting distributes over a separator, whatever stands on its two sides. */
  lemma {:induction false} SplitConcat(a: string, b: string, sep: char)
    ensures Split(a + [sep] + b, sep) == Split(a, sep) + Split(b, sep)
  {
    var s := a + [sep] + b;
    if a == "" {
      assert s[1..] == b;
    } else {
      SplitConcat(a[1..], b, sep);
      assert s[1..] == a[1..] + [sep] + b;
      PushCharConcat(a[0], Split(a[1..], sep), Split(b, sep), sep);
    }
  }

  /** Splitting undoes joining. */
  lemma {:induction false} SplitOfJoin(parts: seq<string>, sep: char)
    requires parts != []
    requires forall p <- parts :: sep !in p
    ensures Split(Join(parts, [sep]), sep) == parts
  {
    if |parts| == 1 {
      SplitNone(parts[0], sep);
    } else {
      SplitOfJoin(parts[1..], sep);
      SplitFirst(parts[0], Join(parts[1..], [sep]), sep);
    }
  }

  /** Joining undoes splitting. */
  lemma {:induction false} JoinOfSplit(s: string, sep: char)
    ensures Join(Split(s, sep), [sep]) == s
  {
    if s != "" {
      JoinOfSplit(s[1..], sep);
      var rest := Split(s[1..], sep);
      var parts := Split(s, sep);
      if s[0] == sep {
        assert parts[1..] == rest;
      } else if |rest| > 1 {
        assert parts[1..] == rest[1..];
      }
    }
  }

  lemma {:induction false} JoinConcat(a: seq<string>, b: seq<string>, sep: string)
    requires a != [] && b != []
    ensures Join(a + b, sep) == Join(a, sep) + sep + Join(b, sep)
  {
    if |a| == 1 {
      assert (a + b)[1..] == b;
    } else {
      JoinConcat(a[1..], b, sep);
      assert (a + b)[1..] == a[1..] + b;
    }
  }

  lemma {:induction false} JoinChars(parts: seq<string>, sep: string, c: char)
    requires c in Join(parts, sep)
    ensures c in sep || exists p <- parts :: c in p
  {
    if |parts| == 1 {
      assert c in parts[0];
    } else if |parts| > 1 {
      if c in Join(parts[1..], sep) {
        JoinChars(parts[1..], sep, c);
      }
    }
  }

  lemma SliceOfSuffix<T>(s: seq<T>, k: nat, a: nat, b: nat)
    requires k <= |s| && a <= b <= |s| - k
    ensures s[k..][a..b] == s[k + a..k + b]
  {
  }

  lemma SliceOfSlice<T>(s: seq<T>, lo: nat, hi: nat, a: nat, b: nat)
    requires lo <= hi <= |s| && a <= b <= hi - lo
    ensures s[lo..hi][a..b] == s[lo + a..lo + b]
  {
    forall i | 0 <= i < b - a ensures s[lo..hi][a..b][i] == s[lo + a..lo + b][i] {
      assert s[lo..hi][a + i] == s[lo + a + i];
    }
  }

  lemma SuffixOfSuffix<T>(s: seq<T>, k: nat, a: nat)
    requires k <= |s| && a <= |s| - k
    ensures s[k..][a..] == s[k + a..]
  {
  }

  lemma Regroup<T>(a: seq<T>, b: seq<T>, c: seq<T>, d: seq<T>)
    ensures (a + b + c) + d == a + (b + c + d)
  {
  }

  // ---- Subsequences ----

  /** `a` can be had from `b` by leaving characters out. */
  ghost predicate IsSubsequence<T>(a: seq<T>, b: seq<T>) {
    a == [] || (b != [] && (IsSubsequence(a, b[1..]) || (a[0] == b[0] && IsSubsequence(a[1..], b[1..]))))
  }

  lemma {:induction false} SubsequenceRefl<T>(a: seq<T>)
    ensures IsSubsequence(a, a)
  {
    if a != [] {
      SubsequenceRefl(a[1..]);
    }
  }

  lemma {:induction false} SubsequenceSkip<T>(a: seq<T>, skipped: seq<T>, b: seq<T>)
    requires IsSubsequence(a, b)
    ensures IsSubsequence(a, skipped + b)
  {
    if skipped == [] {
      assert skipped + b == b;
    } else {
      SubsequenceSkip(a, skipped[1..], b);
      assert (skipped + b)[1..] == skipped[1..] + b;
    }
  }

  lemma {:induction false} SubsequenceConcat<T>(a: seq<T>, b: seq<T>, c: seq<T>, d: seq<T>)
    requires IsSubsequence(a, b) && IsSubsequence(c, d)
    ensures IsSubsequence(a + c, b + d)
    decreases |b|
  {
    if a == [] {
      assert a + c == c;
      SubsequenceSkip(c, b, d);
    } else {
      assert (b + d)[1..] == b[1..] + d;
      if IsSubsequence(a, b[1..]) {
        SubsequenceConcat(a, b[1..], c, d);
      } else {
        SubsequenceConcat(a[1..], b[1..], c, d);
        assert (a + c)[1..] == a[1..] + c;
      }
    }
  }

  lemma SubsequenceOfSlice<T>(a: seq<T>, b: seq<T>, lo: nat, hi: nat)
    requires lo <= hi <= |b|
    requires IsSubsequence(a, b[lo..hi])
    ensures IsSubsequence(a, b)
  {
    SubsequenceSkip(a, b[..lo], b[lo..hi]);
    SubsequenceConcat(a, b[..lo] + b[lo..hi], [], b[hi..]);
    assert a + [] == a;
    assert b[..lo] + b[lo..hi] + b[hi..] == b;
  }
}
