/**
  The functions of Go's `strings` package that the bridge uses to take a
  topic or URL path apart, on strings as sequences of characters.

  Only one-character separators are modelled: the bridge only ever splits
  on "/".
 */
module GoStrings {

  /** How often `c` occurs in `s` (strings.Count with a one-character substring). */
  function Count(s: string, c: char): nat
  {
    multiset(s)[c]
  }

  /** strings.IndexByte: the index of the first `c` in `s`, or -1 if there is none. */
  function IndexByte(s: string, c: char): (i: int)
    ensures -1 <= i < |s|
    ensures i == -1 <==> c !in s
    ensures 0 <= i ==> s[i] == c && c !in s[..i]
  {
    if |s| == 0 then -1
    else if s[0] == c then 0
    else
      var j := IndexByte(s[1..], c);
      assert s == [s[0]] + s[1..];
      if j == -1 then -1
      else
        assert s[..j + 1] == [s[0]] + s[1..][..j];
        j + 1
  }

  /** strings.TrimPrefix: `s` without its leading `prefix`, or `s` unchanged when it does not start with `prefix`. */
  function TrimPrefix(s: string, prefix: string): (r: string)
    ensures prefix <= s ==> s == prefix + r
    ensures !(prefix <= s) ==> r == s
  {
    if prefix <= s then s[|prefix|..] else s
  }

  /** No part holds the separator. */
  predicate SeparatorFree(parts: seq<string>, sep: char)
  {
    forall k :: 0 <= k < |parts| ==> sep !in parts[k]
  }

  /** A list of parts is separator-free when its head and its tail are. */
  lemma SeparatorFreeCons(head: string, tail: seq<string>, sep: char)
    ensures SeparatorFree([head] + tail, sep) <==> sep !in head && SeparatorFree(tail, sep)
  {
    var parts := [head] + tail;
    if sep !in head && SeparatorFree(tail, sep) {
      forall k | 0 <= k < |parts| ensures sep !in parts[k] {
        if k > 0 { assert parts[k] == tail[k - 1]; }
      }
    }
    if SeparatorFree(parts, sep) {
      assert parts[0] == head;
      forall k | 0 <= k < |tail| ensures sep !in tail[k] {
        assert tail[k] == parts[k + 1];
      }
    }
  }

  /** strings.Join: the parts with one `sep` between neighbours; "" for no parts. */
  function Join(parts: seq<string>, sep: char): string
  {
    if |parts| == 0 then ""
    else if |parts| == 1 then parts[0]
    else parts[0] + [sep] + Join(parts[1..], sep)
  }

  /**
    strings.Split with a one-character separator: the maximal `sep`-free pieces
    of `s`, in order. There is always one more piece than there are separators,
    so Split("") is [""], and empty pieces are kept.
   */
  function Split(s: string, sep: char): (parts: seq<string>)
    ensures |parts| == Count(s, sep) + 1
    ensures SeparatorFree(parts, sep)
    ensures Join(parts, sep) == s
    decreases |s|
  {
    var i := IndexByte(s, sep);
    if i == -1 then [s]
    else
      assert s == s[..i] + [sep] + s[i + 1..];
      var rest := Split(s[i + 1..], sep);
      var parts := [s[..i]] + rest;
      assert parts[1..] == rest;
      SeparatorFreeCons(s[..i], rest, sep);
      parts
  }

  /** The first separator of `a + [sep] + b` is the one after `a` when `a` has none. */
  lemma {:induction false} IndexByteAfter(a: string, sep: char, b: string)
    requires sep !in a
    ensures IndexByte(a + [sep] + b, sep) == |a|
  {
    if |a| > 0 {
      assert (a + [sep] + b)[1..] == a[1..] + [sep] + b;
      IndexByteAfter(a[1..], sep, b);
    }
  }

  /** Two separator-free heads are equal when one, with its separator, begins the other with its separator. */
  lemma HeadBeforeSeparator(a: string, c: string, d: string, sep: char)
    requires sep !in a && sep !in c
    ensures a + [sep] <= c + [sep] + d <==> a == c
  {
    var s := c + [sep] + d;
    if a + [sep] <= s {
      IndexByteAfter(c, sep, d);
      assert s == a + [sep] + s[|a| + 1..];
      IndexByteAfter(a, sep, s[|a| + 1..]);
      assert a == s[..|a|] && c == s[..|c|];
    }
  }

  /** A separator-free head is the first piece, and the rest is split on its own. */
  lemma SplitFirst(a: string, sep: char, b: string)
    requires sep !in a
    ensures Split(a + [sep] + b, sep) == [a] + Split(b, sep)
  {
    var s := a + [sep] + b;
    IndexByteAfter(a, sep, b);
    assert s[..|a|] == a;
    assert s[|a| + 1..] == b;
  }

  /** Joining two non-empty lists of parts puts one separator between the two joins. */
  lemma {:induction false} JoinAppend(xs: seq<string>, ys: seq<string>, sep: char)
    requires |xs| > 0 && |ys| > 0
    ensures Join(xs + ys, sep) == Join(xs, sep) + [sep] + Join(ys, sep)
  {
    if |xs| == 1 {
      assert (xs + ys)[1..] == ys;
    } else {
      assert (xs + ys)[1..] == xs[1..] + ys;
      JoinAppend(xs[1..], ys, sep);
    }
  }

  /** Split undoes Join when no part holds the separator (Join undoes Split by Split's contract). */
  lemma {:induction false} SplitJoin(parts: seq<string>, sep: char)
    requires |parts| > 0
    requires SeparatorFree(parts, sep)
    ensures Split(Join(parts, sep), sep) == parts
  {
    if |parts| == 1 {
      SplitWithoutSeparator(parts[0], sep);
    } else {
      assert [parts[0]] + parts[1..] == parts;
      SeparatorFreeCons(parts[0], parts[1..], sep);
      var rest := Join(parts[1..], sep);
      assert Join(parts, sep) == parts[0] + [sep] + rest;
      SplitFirst(parts[0], sep, rest);
      SplitJoin(parts[1..], sep);
    }
  }

  /** Splitting at a separator splits each side separately. */
  lemma SplitAround(a: string, sep: char, b: string)
    ensures Split(a + [sep] + b, sep) == Split(a, sep) + Split(b, sep)
  {
    var xs, ys := Split(a, sep), Split(b, sep);
    JoinAppend(xs, ys, sep);
    assert SeparatorFree(xs + ys, sep) by {
      forall k | 0 <= k < |xs + ys| ensures sep !in (xs + ys)[k] {
        if k >= |xs| { assert (xs + ys)[k] == ys[k - |xs|]; }
      }
    }
    SplitJoin(xs + ys, sep);
  }

  /** A join whose first parts are `xs` equals the join of `xs` or continues it with a separator. */
  lemma JoinOfExtension(xs: seq<string>, ys: seq<string>, sep: char)
    requires |xs| > 0 && xs <= ys
    ensures Join(ys, sep) == Join(xs, sep) || Join(xs, sep) + [sep] <= Join(ys, sep)
  {
    var rest := ys[|xs|..];
    assert ys == xs + rest;
    if |rest| > 0 {
      JoinAppend(xs, rest, sep);
    }
  }

  /** When the pieces of `q` begin the pieces of `t`, `t` is `q` or continues it with a separator. */
  lemma SplitPrefixOnly(q: string, t: string, sep: char)
    requires Split(q, sep) <= Split(t, sep)
    ensures t == q || q + [sep] <= t
  {
    JoinOfExtension(Split(q, sep), Split(t, sep), sep);
  }

  /** Continuing `q` with a separator keeps the pieces of `q` as the first pieces. */
  lemma SplitPrefixIf(q: string, t: string, sep: char)
    requires q + [sep] <= t
    ensures Split(q, sep) <= Split(t, sep)
  {
    var b := t[|q| + 1..];
    assert t == q + [sep] + b;
    SplitAround(q, sep, b);
  }

  /**
    The pieces of `q` are the first pieces of `t` exactly when `t` is `q`
    itself or continues `q` with a separator.
   */
  lemma SplitPrefix(q: string, t: string, sep: char)
    ensures Split(q, sep) <= Split(t, sep) <==> t == q || q + [sep] <= t
  {
    if Split(q, sep) <= Split(t, sep) {
      SplitPrefixOnly(q, t, sep);
    }
    if q + [sep] <= t {
      SplitPrefixIf(q, t, sep);
    }
  }

  /** Every character of a part occurs in the join. */
  lemma {:induction false} JoinContains(parts: seq<string>, sep: char, k: nat, c: char)
    requires k < |parts| && c in parts[k]
    ensures c in Join(parts, sep)
  {
    if |parts| > 1 {
      if k > 0 {
        JoinContains(parts[1..], sep, k - 1, c);
      }
    }
  }

  /** Every character of a piece of `s` occurs in `s`. */
  lemma SplitContains(s: string, sep: char, k: nat, c: char)
    requires k < |Split(s, sep)| && c in Split(s, sep)[k]
    ensures c in s
  {
    JoinContains(Split(s, sep), sep, k, c);
  }

  /** A string without the separator is a single piece. */
  lemma SplitWithoutSeparator(s: string, sep: char)
    requires sep !in s
    ensures Split(s, sep) == [s]
  {
  }

  /** Appending a separator and a separator-free piece appends one piece. */
  lemma SplitAppendPiece(a: string, sep: char, piece: string)
    requires sep !in piece
    ensures Split(a + [sep] + piece, sep) == Split(a, sep) + [piece]
  {
    SplitAround(a, sep, piece);
    SplitWithoutSeparator(piece, sep);
  }

  /** TrimPrefix undoes prepending the prefix. */
  lemma TrimPrefixConcat(prefix: string, rest: string)
    ensures TrimPrefix(prefix + rest, prefix) == rest
  {
  }
}
