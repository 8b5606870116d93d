/** The search-path variable as a list of directory entries.

    On Unix the `PATH` value is a string of directory entries separated by
    `:`. `std::env::split_paths` cuts the value at every separator (so the
    empty value is one empty entry, and empty entries are kept), and
    `std::env::join_paths` glues entries back with the separator, failing
    when an entry itself holds the separator. Directory entries are compared
    as plain strings here.
 */
module PathList {

  datatype Option<+T> = None | Some(value: T)

  /** The separator between search-path entries on Unix. */
  const Separator: char := ':'

  /** The entries of `s`, cut at every `sep`; there is always at least one. */
  function Split(s: string, sep: char): (r: seq<string>)
    ensures |r| >= 1
    ensures forall i :: 0 <= i < |r| ==> sep !in r[i]
    decreases |s|
  {
    if s == [] then [""]
    else if s[0] == sep then [""] + Split(s[1..], sep)
    else
      var rest := Split(s[1..], sep);
      [[s[0]] + rest[0]] + rest[1..]
  }

  /** The entries glued together with `sep`, or None when one of them holds `sep`. */
  function Join(es: seq<string>, sep: char): (r: Option<string>)
    ensures r.Some? <==> forall i :: 0 <= i < |es| ==> sep !in es[i]
  {
    if es == [] then Some("")
    else if sep in es[0] then None
    else if |es| == 1 then Some(es[0])
    else
      match Join(es[1..], sep)
      case None => None
      case Some(rest) => Some(es[0] + [sep] + rest)
  }

  /** The entries that differ from `dir`, in their original order. */
  function Without(es: seq<string>, dir: string): (r: seq<string>)
    ensures |r| <= |es|
    ensures forall i :: 0 <= i < |r| ==> r[i] != dir
  {
    if es == [] then []
    else (if es[0] == dir then [] else [es[0]]) + Without(es[1..], dir)
  }

  /** `sub` is `es` with some entries dropped and the rest kept in order. */
  ghost predicate IsSubsequence(sub: seq<string>, es: seq<string>)
    decreases |es|
  {
    if sub == [] then true
    else if es == [] then false
    else (sub[0] == es[0] && IsSubsequence(sub[1..], es[1..])) || IsSubsequence(sub, es[1..])
  }

  /** The `PATH` value after every entry equal to `dir` is filtered out. */
  function RemovedPath(s: string, dir: string): (r: string)
    ensures Split(r, Separator) ==
      (var kept := Without(Split(s, Separator), dir); if kept == [] then [""] else kept)
  {
    var kept := Without(Split(s, Separator), dir);
    WithoutMultiset(Split(s, Separator), dir);
    assert forall i :: 0 <= i < |kept| ==> Separator !in kept[i] by {
      forall i | 0 <= i < |kept| ensures Separator !in kept[i] {
        assert kept[i] in multiset(kept);
      }
    }
    var joined := Join(kept, Separator);
    if kept == [] then joined.value
    else
      SplitJoin(kept, Separator);
      joined.value
  }

  /** The join that follows the filtering never fails, since no entry that
      comes out of a split holds the separator; it yields `RemovedPath`. */
  lemma RemoveJoins(s: string, dir: string)
    ensures Join(Without(Split(s, Separator), dir), Separator) == Some(RemovedPath(s, dir))
  {
    var kept := Without(Split(s, Separator), dir);
    WithoutMultiset(Split(s, Separator), dir);
    forall i | 0 <= i < |kept| ensures Separator !in kept[i] {
      assert kept[i] in multiset(kept);
    }
  }

  // ---------------------------------------------------------------------------
  // Splitting and joining are inverse to each other

  /** Cutting `a`, a separator and `b` gives `a` followed by the entries of `b`. */
  lemma {:induction false} SplitCons(a: string, sep: char, b: string)
    requires sep !in a
    ensures Split(a + [sep] + b, sep) == [a] + Split(b, sep)
    decreases |a|
  {
    var s := a + [sep] + b;
    if a == [] {
      assert s[1..] == b;
    } else {
      assert s[0] == a[0];
      assert s[1..] == a[1..] + [sep] + b;
      SplitCons(a[1..], sep, b);
      assert [a[0]] + a[1..] == a;
    }
  }

  /** Cutting two values glued with a separator cuts each of them. */
  lemma {:induction false} SplitAppend(a: string, sep: char, b: string)
    ensures Split(a + [sep] + b, sep) == Split(a, sep) + Split(b, sep)
    decreases |a|
  {
    var s := a + [sep] + b;
    if a == [] {
      assert s[1..] == b;
    } else {
      assert s[0] == a[0];
      assert s[1..] == a[1..] + [sep] + b;
      SplitAppend(a[1..], sep, b);
    }
  }

  /** Joining a non-empty list of separator-free entries and cutting it again
      gives back the list. */
  lemma {:induction false} SplitJoin(es: seq<string>, sep: char)
    requires |es| >= 1
    requires forall i :: 0 <= i < |es| ==> sep !in es[i]
    ensures Join(es, sep).Some? && Split(Join(es, sep).value, sep) == es
    decreases |es|
  {
    if |es| == 1 {
      SplitSingle(es[0], sep);
    } else {
      SplitJoin(es[1..], sep);
      var rest := Join(es[1..], sep).value;
      SplitCons(es[0], sep, rest);
      assert [es[0]] + es[1..] == es;
    }
  }

  /** An entry free of the separator splits to itself. */
  lemma {:induction false} SplitSingle(a: string, sep: char)
    requires sep !in a
    ensures Split(a, sep) == [a]
    decreases |a|
  {
    if a != [] {
      SplitSingle(a[1..], sep);
      assert [a[0]] + a[1..] == a;
    }
  }

  /** Joining an entry in front of a non-empty list puts a separator between. */
  lemma JoinCons(x: string, es: seq<string>, sep: char)
    requires sep !in x && |es| >= 1 && Join(es, sep).Some?
    ensures Join([x] + es, sep) == Some(x + [sep] + Join(es, sep).value)
  {
    assert ([x] + es)[1..] == es;
  }

  /** Cutting any value and joining the pieces gives back the value. */
  lemma {:induction false} JoinSplit(s: string, sep: char)
    ensures Join(Split(s, sep), sep) == Some(s)
    decreases |s|
  {
    if s != [] {
      var t := s[1..];
      assert s == [s[0]] + t;
      JoinSplit(t, sep);
      if s[0] == sep {
        JoinSplitSepHead(t, sep);
      } else {
        JoinSplitCharHead(s[0], t, sep);
      }
    }
  }

  /** A value starting with the separator: an empty entry goes in front. */
  lemma JoinSplitSepHead(t: string, sep: char)
    requires Join(Split(t, sep), sep) == Some(t)
    ensures Join(Split([sep] + t, sep), sep) == Some([sep] + t)
  {
    var s := [sep] + t;
    assert s[1..] == t;
    var rest := Split(t, sep);
    assert Split(s, sep) == [""] + rest;
    JoinCons("", rest, sep);
    assert "" + [sep] + t == s;
  }

  /** A value starting with another character: it goes in front of the first entry. */
  lemma JoinSplitCharHead(c: char, t: string, sep: char)
    requires c != sep
    requires Join(Split(t, sep), sep) == Some(t)
    ensures Join(Split([c] + t, sep), sep) == Some([c] + t)
  {
    var s := [c] + t;
    assert s[0] == c && s[1..] == t;
    var rest := Split(t, sep);
    assert Split(s, sep) == [[c] + rest[0]] + rest[1..];
    if |rest| == 1 {
      assert Join(rest, sep) == Some(rest[0]);
    } else {
      var tail := Join(rest[1..], sep).value;
      assert rest == [rest[0]] + rest[1..];
      JoinCons(rest[0], rest[1..], sep);
      assert t == rest[0] + [sep] + tail;
      JoinCons([c] + rest[0], rest[1..], sep);
      assert [c] + rest[0] + [sep] + tail == s;
    }
  }

  /** How many times `c` occurs in `s`. */
  function Count(s: string, c: char): nat
  {
    if s == [] then 0 else (if s[0] == c then 1 else 0) + Count(s[1..], c)
  }

  lemma {:induction false} CountAppend(a: string, b: string, c: char)
    ensures Count(a + b, c) == Count(a, c) + Count(b, c)
    decreases |a|
  {
    if a != [] {
      assert (a + b)[1..] == a[1..] + b;
      CountAppend(a[1..], b, c);
    } else {
      assert a + b == b;
    }
  }

  lemma {:induction false} CountZero(s: string, c: char)
    ensures Count(s, c) == 0 <==> c !in s
    decreases |s|
  {
    if s != [] {
      CountZero(s[1..], c);
      assert s == [s[0]] + s[1..];
    }
  }

  /** There is one entry more than there are separators. */
  lemma {:induction false} SplitCount(s: string, sep: char)
    ensures |Split(s, sep)| == Count(s, sep) + 1
    decreases |s|
  {
    if s != [] {
      SplitCount(s[1..], sep);
    }
  }

  // ---------------------------------------------------------------------------
  // Filtering out a directory

  /** Filtering removes every `dir` and keeps every other entry as often as it
      occurred. */
  lemma {:induction false} WithoutMultiset(es: seq<string>, dir: string)
    ensures multiset(Without(es, dir)) == multiset(es)[dir := 0]
    decreases |es|
  {
    if es != [] {
      WithoutMultiset(es[1..], dir);
      assert es == [es[0]] + es[1..];
    }
  }

  lemma WithoutCons(x: string, es: seq<string>, dir: string)
    ensures Without([x] + es, dir) == (if x == dir then [] else [x]) + Without(es, dir)
  {
    assert ([x] + es)[1..] == es;
  }

  /** Filtering distributes over concatenation, so the kept entries stay in
      the order they had. */
  lemma {:induction false} WithoutAppend(a: seq<string>, b: seq<string>, dir: string)
    ensures Without(a + b, dir) == Without(a, dir) + Without(b, dir)
    decreases |a|
  {
    if a != [] {
      var h := if a[0] == dir then [] else [a[0]];
      WithoutAppend(a[1..], b, dir);
      assert a + b == [a[0]] + (a[1..] + b);
      WithoutCons(a[0], a[1..] + b, dir);
      assert Without(a + b, dir) == h + (Without(a[1..], dir) + Without(b, dir));
      assert Without(a, dir) == h + Without(a[1..], dir);
    } else {
      assert a + b == b;
    }
  }

  /** The kept entries form a subsequence of the original list. */
  lemma {:induction false} WithoutIsSubsequence(es: seq<string>, dir: string)
    ensures IsSubsequence(Without(es, dir), es)
    decreases |es|
  {
    if es != [] {
      WithoutIsSubsequence(es[1..], dir);
      var kept := Without(es, dir);
      WithoutCons(es[0], es[1..], dir);
      assert es == [es[0]] + es[1..];
      if es[0] != dir {
        assert kept[0] == es[0] && kept[1..] == Without(es[1..], dir);
      } else {
        assert kept == Without(es[1..], dir);
      }
    }
  }

  lemma {:induction false} SubsequenceMultiset(sub: seq<string>, es: seq<string>)
    ensures IsSubsequence(sub, es) ==> multiset(sub) <= multiset(es)
    decreases |es|
  {
    if sub != [] && es != [] {
      assert es == [es[0]] + es[1..];
      assert sub == [sub[0]] + sub[1..];
      SubsequenceMultiset(sub[1..], es[1..]);
      SubsequenceMultiset(sub, es[1..]);
    }
  }

  /** Filtering is the only way to keep every entry other than `dir`, drop
      every `dir`, and preserve the order: any list with those properties is
      `Without(es, dir)`. */
  lemma {:induction false} WithoutUnique(r: seq<string>, es: seq<string>, dir: string)
    requires IsSubsequence(r, es)
    requires multiset(r) == multiset(es)[dir := 0]
    ensures r == Without(es, dir)
    decreases |es|
  {
    if es != [] {
      var x := es[0];
      WithoutCons(x, es[1..], dir);
      assert [x] + es[1..] == es;
      if x == dir {
        UniqueDroppedHead(r, es, dir);
        WithoutUnique(r, es[1..], dir);
      } else {
        UniqueKeptHead(r, es, dir);
        UniqueKeptTail(r, es, dir);
        WithoutUnique(r[1..], es[1..], dir);
        assert r == [x] + r[1..];
      }
    }
  }

  /** When the first entry is `dir`, `r` is the same kind of list for the
      rest of the entries. */
  lemma UniqueDroppedHead(r: seq<string>, es: seq<string>, dir: string)
    requires es != [] && es[0] == dir
    requires IsSubsequence(r, es)
    requires multiset(r) == multiset(es)[dir := 0]
    ensures IsSubsequence(r, es[1..]) && multiset(r) == multiset(es[1..])[dir := 0]
  {
    assert es == [dir] + es[1..];
    assert multiset(es) == multiset{dir} + multiset(es[1..]);
    if r != [] {
      assert r[0] in multiset(r);
    }
  }

  /** When the first entry is kept, it is the first entry of `r`. */
  lemma UniqueKeptHead(r: seq<string>, es: seq<string>, dir: string)
    requires es != [] && es[0] != dir
    requires IsSubsequence(r, es)
    requires multiset(r) == multiset(es)[dir := 0]
    ensures r != [] && r[0] == es[0] && IsSubsequence(r[1..], es[1..])
  {
    var x := es[0];
    assert es == [x] + es[1..];
    assert multiset(es)[x] == multiset(es[1..])[x] + 1;
    assert multiset(r)[x] == multiset(es)[x];
    SubsequenceMultiset(r, es[1..]);
  }

  /** ... and the rest of `r` keeps what the rest of the entries keep. */
  lemma UniqueKeptTail(r: seq<string>, es: seq<string>, dir: string)
    requires es != [] && r != [] && r[0] == es[0] && es[0] != dir
    requires multiset(r) == multiset(es)[dir := 0]
    ensures multiset(r[1..]) == multiset(es[1..])[dir := 0]
  {
    var x := es[0];
    assert es == [x] + es[1..];
    assert r == [x] + r[1..];
    assert multiset(es) == multiset{x} + multiset(es[1..]);
    assert multiset(r) == multiset{x} + multiset(r[1..]);
    forall y ensures multiset(r[1..])[y] == multiset(es[1..])[dir := 0][y] {
      assert multiset(r)[y] == multiset(es)[dir := 0][y];
    }
  }

  /** Filtering a directory that is absent changes nothing. */
  lemma {:induction false} WithoutAbsent(es: seq<string>, dir: string)
    requires dir !in es
    ensures Without(es, dir) == es
    decreases |es|
  {
    if es != [] {
      WithoutAbsent(es[1..], dir);
      assert es == [es[0]] + es[1..];
    }
  }

  /** Filtering twice is filtering once. */
  lemma WithoutIdempotent(es: seq<string>, dir: string)
    ensures Without(Without(es, dir), dir) == Without(es, dir)
  {
    var kept := Without(es, dir);
    WithoutMultiset(es, dir);
    assert dir !in multiset(kept);
    WithoutAbsent(kept, dir);
  }

  /** Filtering two directories gives the same list in either order. */
  lemma {:induction false} WithoutCommutes(es: seq<string>, a: string, b: string)
    ensures Without(Without(es, a), b) == Without(Without(es, b), a)
    decreases |es|
  {
    if es != [] {
      var x, tail := es[0], es[1..];
      assert es == [x] + tail;
      WithoutCommutes(tail, a, b);
      WithoutCons(x, tail, a);
      WithoutCons(x, tail, b);
      if x == a {
        assert Without(es, a) == Without(tail, a);
        if x != b {
          WithoutCons(x, Without(tail, b), a);
        }
      } else if x == b {
        assert Without(es, b) == Without(tail, b);
        WithoutCons(x, Without(tail, a), b);
      } else {
        WithoutCons(x, Without(tail, a), b);
        WithoutCons(x, Without(tail, b), a);
      }
    }
  }

  // ---------------------------------------------------------------------------
  // The PATH value after registering and deregistering a directory

  /** Putting `dir` in front of the entries and joining gives `dir`, a
      separator and the old value, or fails when `dir` holds the separator. */
  lemma PrependJoin(s: string, dir: string)
    ensures Separator !in dir ==> Join([dir] + Split(s, Separator), Separator) == Some(dir + [Separator] + s)
    ensures Separator in dir ==> Join([dir] + Split(s, Separator), Separator).None?
  {
    var es := [dir] + Split(s, Separator);
    if Separator !in dir {
      JoinSplit(s, Separator);
      assert es[1..] == Split(s, Separator);
    }
  }

  /** The entries of the value `dir:s` are `dir` followed by the entries of `s`. */
  lemma PrependedEntries(s: string, dir: string)
    requires Separator !in dir
    ensures Split(dir + [Separator] + s, Separator) == [dir] + Split(s, Separator)
  {
    SplitCons(dir, Separator, s);
  }

  /** Deregistering a directory that is not registered leaves the value as it was. */
  lemma RemoveAbsent(s: string, dir: string)
    requires dir !in Split(s, Separator)
    ensures RemovedPath(s, dir) == s
  {
    var es := Split(s, Separator);
    WithoutAbsent(es, dir);
    JoinSplit(s, Separator);
  }

  /** Deregistering twice gives the same value as deregistering once. */
  lemma RemoveIdempotent(s: string, dir: string)
    ensures RemovedPath(RemovedPath(s, dir), dir) == RemovedPath(s, dir)
  {
    var once := RemovedPath(s, dir);
    var kept := Without(Split(s, Separator), dir);
    if kept == [] {
      // Nothing is left: the value is empty, and filtering its one empty entry
      // leaves it empty.
      JoinSplit(once, Separator);
      assert once == "";
      assert Split(once, Separator) == [""];
      WithoutCons("", [], dir);
      assert [""] + [] == [""];
      assert Without([""], dir) == (if dir == "" then [] else [""]);
      var twice := RemovedPath(once, dir);
      assert Split(twice, Separator) == [""];
      SplitInjective(twice, once, Separator);
    } else {
      WithoutMultiset(Split(s, Separator), dir);
      assert dir !in multiset(kept);
      RemoveAbsent(once, dir);
    }
  }

  /** Two values with the same entries are equal. */
  lemma SplitInjective(x: string, y: string, sep: char)
    requires Split(x, sep) == Split(y, sep)
    ensures x == y
  {
    JoinSplit(x, sep);
    JoinSplit(y, sep);
  }

  /** Registering a directory that was not on the path and deregistering it
      again restores the value exactly. */
  lemma AddThenRemove(s: string, dir: string)
    requires Separator !in dir
    requires dir !in Split(s, Separator)
    ensures RemovedPath(dir + [Separator] + s, dir) == s
  {
    var es := Split(s, Separator);
    PrependedEntries(s, dir);
    assert Without([dir] + es, dir) == Without(es, dir);
    WithoutAbsent(es, dir);
    JoinSplit(s, Separator);
  }

  /** Deregistering a directory that sits behind the first entry leaves the
      first entry in front of the rest. */
  lemma RemoveSecond(s: string, first: string, second: string)
    requires Separator !in first && Separator !in second && first != second
    requires first !in Split(s, Separator)
    ensures RemovedPath(second + [Separator] + (first + [Separator] + s), first) == second + [Separator] + s
  {
    var es := Split(s, Separator);
    var inner := first + [Separator] + s;
    var both := second + [Separator] + inner;
    var kept := Without(Split(both, Separator), first);
    assert kept == [second] + es by {
      PrependedEntries(s, first);
      PrependedEntries(inner, second);
      assert Split(both, Separator) == [second] + ([first] + es);
      WithoutCons(second, [first] + es, first);
      WithoutCons(first, es, first);
      WithoutAbsent(es, first);
    }
    assert Split(RemovedPath(both, first), Separator) == [second] + es;
    PrependedEntries(s, second);
    SplitInjective(RemovedPath(both, first), second + [Separator] + s, Separator);
  }

  /** Two stacked registrations are undone by the two deregistrations in
      either order. */
  lemma NestedAddsRemoveInAnyOrder(s: string, first: string, second: string)
    requires Separator !in first && Separator !in second && first != second
    requires first !in Split(s, Separator) && second !in Split(s, Separator)
    ensures RemovedPath(RemovedPath(second + [Separator] + (first + [Separator] + s), second), first) == s
    ensures RemovedPath(RemovedPath(second + [Separator] + (first + [Separator] + s), first), second) == s
  {
    var inner := first + [Separator] + s;
    PrependedEntries(s, first);
    AddThenRemove(inner, second);
    AddThenRemove(s, first);
    RemoveSecond(s, first, second);
    AddThenRemove(s, second);
  }
}
