/** Lines of a text, as `str::lines` cuts them: a line ends at a line feed, which is dropped
    together with a carriage return right before it; what follows the last line feed is a line
    only when it is not empty, and keeps its carriage return. */
module Lines {

  function IndexOf<T(==)>(s: seq<T>, x: T): (k: nat)
    ensures k <= |s|
    ensures k < |s| ==> s[k] == x
    ensures forall i | 0 <= i < k :: s[i] != x
  {
    if s == [] || s[0] == x then 0 else 1 + IndexOf(s[1..], x)
  }

  function StripLast<T(==)>(s: seq<T>, x: T): (r: seq<T>)
    ensures r == s || r + [x] == s
  {
    if s != [] && s[|s| - 1] == x then s[..|s| - 1] else s
  }

  function LinesOf<T(==)>(s: seq<T>, lf: T, cr: T): seq<seq<T>>
    decreases |s|
  {
    var k := IndexOf(s, lf);
    if s == [] then []
    else if k == |s| then [s]
    else [StripLast(s[..k], cr)] + LinesOf(s[k + 1..], lf, cr)
  }

  /** `slice::join` with a one-element separator. */
  function Join<T>(parts: seq<seq<T>>, sep: T): seq<T> {
    if parts == [] then []
    else if |parts| == 1 then parts[0]
    else parts[0] + [sep] + Join(parts[1..], sep)
  }

  lemma {:induction false} JoinCons<T>(first: seq<T>, parts: seq<seq<T>>, sep: T)
    requires parts != []
    ensures Join([first] + parts, sep) == first + [sep] + Join(parts, sep)
  {
    assert ([first] + parts)[1..] == parts;
  }

  lemma {:induction false} JoinSnoc<T>(parts: seq<seq<T>>, last: seq<T>, sep: T)
    requires parts != []
    ensures Join(parts + [last], sep) == Join(parts, sep) + [sep] + last
  {
    if |parts| == 1 {
      assert (parts + [last])[1..] == [last];
    } else {
      assert (parts + [last])[1..] == parts[1..] + [last];
      JoinSnoc(parts[1..], last, sep);
    }
  }

  lemma {:induction false} IndexOfPrefix<T>(a: seq<T>, x: T, b: seq<T>)
    requires x !in a
    ensures IndexOf(a + [x] + b, x) == |a|
  {
    if a != [] {
      assert (a + [x] + b)[1..] == a[1..] + [x] + b;
      IndexOfPrefix(a[1..], x, b);
    }
  }

  lemma {:induction false} IndexOfAbsent<T>(a: seq<T>, x: T)
    requires x !in a
    ensures IndexOf(a, x) == |a|
  {
    if a != [] {
      IndexOfAbsent(a[1..], x);
    }
  }

  /** A line as `lines` can produce it before the end of the text. */
  predicate IsLine<T(==)>(l: seq<T>, lf: T, cr: T) {
    lf !in l && (l == [] || l[|l| - 1] != cr)
  }

  predicate AreLines<T(==)>(ls: seq<seq<T>>, lf: T, cr: T) {
    forall i | 0 <= i < |ls| :: IsLine(ls[i], lf, cr)
  }

  /** The first line and the rest of a text with a line feed at `k`. */
  lemma {:induction false} LinesUnfold<T>(s: seq<T>, lf: T, cr: T, k: nat)
    requires k == IndexOf(s, lf) < |s|
    ensures LinesOf(s, lf, cr) == [StripLast(s[..k], cr)] + LinesOf(s[k + 1..], lf, cr)
  {
    assert s != [];
  }

  lemma {:induction false} LinesCons<T>(l: seq<T>, rest: seq<T>, lf: T, cr: T)
    requires IsLine(l, lf, cr)
    ensures LinesOf(l + [lf] + rest, lf, cr) == [l] + LinesOf(rest, lf, cr)
  {
    var s := l + [lf] + rest;
    IndexOfPrefix(l, lf, rest);
    assert s[..|l|] == l && s[|l| + 1..] == rest;
  }

  /** Lines, each closed by a line feed, are cut back into the same lines. */
  lemma {:induction false} LinesOfTerminated<T>(ls: seq<seq<T>>, lf: T, cr: T)
    requires AreLines(ls, lf, cr)
    requires ls != []
    ensures LinesOf(Join(ls, lf) + [lf], lf, cr) == ls
  {
    var rest := ls[1..];
    if rest == [] {
      LinesCons(ls[0], [], lf, cr);
      assert ls[0] + [lf] + [] == ls[0] + [lf] && Join(ls, lf) == ls[0];
    } else {
      LinesOfTerminated(rest, lf, cr);
      TerminatedCons(ls[0], rest, lf);
      LinesCons(ls[0], Join(rest, lf) + [lf], lf, cr);
      assert ls == [ls[0]] + rest;
    }
  }

  lemma {:induction false} TerminatedCons<T>(l: seq<T>, rest: seq<seq<T>>, lf: T)
    requires rest != []
    ensures Join([l] + rest, lf) + [lf] == l + [lf] + (Join(rest, lf) + [lf])
  {
    JoinCons(l, rest, lf);
  }

  /** Without the final line feed the last line must not be empty: it would not be seen. */
  lemma {:induction false} LinesOfUnterminated<T>(ls: seq<seq<T>>, lf: T, cr: T)
    requires AreLines(ls, lf, cr)
    requires ls != [] && ls[|ls| - 1] != []
    ensures LinesOf(Join(ls, lf), lf, cr) == ls
  {
    if |ls| == 1 {
      IndexOfAbsent(ls[0], lf);
    } else {
      LinesOfUnterminated(ls[1..], lf, cr);
      LinesCons(ls[0], Join(ls[1..], lf), lf, cr);
    }
  }
}
