/**
 * The JavaScript string conventions the stores and components rely on:
 * optional values and their truthiness, the `||` default, `includes`,
 * `startsWith`, `split` on a one-character class, `pop()`, `[0]` and
 * `substring(0, n)`. Strings are sequences of characters.
 */
module JsText {

  datatype Option<+T> = None | Some(value: T)

  /** A string value is truthy when it is present (not null/undefined) and not empty. */
  predicate Truthy(o: Option<string>)
  {
    o.Some? && o.value != ""
  }

  /** `o || fallback` on an optional string. */
  function OrElse(o: Option<string>, fallback: string): (r: string)
    ensures fallback != "" ==> r != ""
    ensures Truthy(o) ==> r == o.value
    ensures !Truthy(o) ==> r == fallback
  {
    if Truthy(o) then o.value else fallback
  }

  /** `s.startsWith(prefix)`: the first |prefix| characters of s are prefix. */
  function StartsWith(s: string, prefix: string): (b: bool)
    ensures b <==> |prefix| <= |s| && s[..|prefix|] == prefix
  {
    prefix <= s
  }

  /** `s.includes(t)`: some window of s of t's length is t. */
  function Includes(s: string, t: string): (b: bool)
    ensures b <==> exists i, j | 0 <= i <= j <= |s| && j - i == |t| :: s[i..j] == t
  {
    IncludesWindow(s, t);
    exists i | 0 <= i <= |s| :: t <= s[i..]
  }

  /** t is a prefix of some suffix of s exactly when some window of s is t. */
  lemma IncludesWindow(s: string, t: string)
    ensures (exists i | 0 <= i <= |s| :: t <= s[i..]) <==>
            (exists i, j | 0 <= i <= j <= |s| && j - i == |t| :: s[i..j] == t)
  {
    if exists i | 0 <= i <= |s| :: t <= s[i..] {
      var i :| 0 <= i <= |s| && t <= s[i..];
      assert s[i..i + |t|] == t;
    }
    if exists i, j | 0 <= i <= j <= |s| && j - i == |t| :: s[i..j] == t {
      var i, j :| 0 <= i <= j <= |s| && j - i == |t| && s[i..j] == t;
      assert t <= s[i..];
    }
  }

  /** `s.substring(0, n)` for a non-negative n. */
  function Take(s: string, n: nat): (r: string)
    ensures r <= s
    ensures |r| == if |s| <= n then |s| else n
  {
    if |s| <= n then s else s[..n]
  }

  /** No character of s is one of the separators. */
  ghost predicate Avoids(s: string, seps: set<char>)
  {
    forall i | 0 <= i < |s| :: s[i] !in seps
  }

  /** How many characters of s are separators. */
  function CountOf(s: string, seps: set<char>): nat
  {
    if s == [] then 0 else (if s[0] in seps then 1 else 0) + CountOf(s[1..], seps)
  }

  /**
   * `s.split(sep)` for a separator that matches exactly one character out of
   * `seps` (a one-character string, or a class like `/[\\/]/`): the pieces
   * between separators, empty pieces included; `"".split(sep)` is `[""]`.
   */
  function Split(s: string, seps: set<char>): (parts: seq<string>)
    ensures |parts| >= 1
  {
    if s == [] then [[]]
    else
      var rest := Split(s[1..], seps);
      if s[0] in seps then [[]] + rest
      else [[s[0]] + rest[0]] + rest[1..]
  }

  /** `parts.join(sep)` */
  function Join(parts: seq<string>, sep: char): string
    requires |parts| >= 1
  {
    if |parts| == 1 then parts[0] else parts[0] + [sep] + Join(parts[1..], sep)
  }

  /** `s.split(sep)[0]`: a piece, so it holds no separator (see FirstPartIsHead for which piece). */
  function FirstPart(s: string, seps: set<char>): (r: string)
    ensures Avoids(r, seps)
  {
    SplitPartsAvoid(s, seps);
    Split(s, seps)[0]
  }

  /**
   * `s.split(sep).pop()`: never undefined, because split yields at least one
   * piece, and free of separators (see LastPartIsBaseName for which piece).
   */
  function LastPart(s: string, seps: set<char>): (r: string)
    ensures Avoids(r, seps)
  {
    SplitPartsAvoid(s, seps);
    var parts := Split(s, seps);
    parts[|parts| - 1]
  }

  lemma {:induction false} CountOfZero(s: string, seps: set<char>)
    ensures CountOf(s, seps) == 0 <==> Avoids(s, seps)
  {
    if s != [] {
      CountOfZero(s[1..], seps);
      if Avoids(s[1..], seps) && s[0] !in seps {
        forall i | 0 <= i < |s| ensures s[i] !in seps {
          if i > 0 { assert s[i] == s[1..][i - 1]; }
        }
      }
      if Avoids(s, seps) {
        forall i | 0 <= i < |s[1..]| ensures s[1..][i] !in seps {
          assert s[1..][i] == s[i + 1];
        }
      }
    }
  }

  /** Splitting yields one more piece than there are separators. */
  lemma {:induction false} SplitCount(s: string, seps: set<char>)
    ensures |Split(s, seps)| == CountOf(s, seps) + 1
  {
    if s != [] {
      SplitCount(s[1..], seps);
    }
  }

  /** No piece of a split contains a separator. */
  lemma {:induction false} SplitPartsAvoid(s: string, seps: set<char>)
    ensures forall k | 0 <= k < |Split(s, seps)| :: Avoids(Split(s, seps)[k], seps)
  {
    if s != [] {
      SplitPartsAvoid(s[1..], seps);
      var rest := Split(s[1..], seps);
      if s[0] !in seps {
        var head := [s[0]] + rest[0];
        assert Avoids(rest[0], seps);
        forall i | 0 <= i < |head| ensures head[i] !in seps {
          if i > 0 { assert head[i] == rest[0][i - 1]; }
        }
        assert Split(s, seps) == [head] + rest[1..];
        forall k | 0 <= k < |Split(s, seps)| ensures Avoids(Split(s, seps)[k], seps) {
          if k > 0 { assert Split(s, seps)[k] == rest[k]; }
        }
      } else {
        forall k | 0 <= k < |Split(s, seps)| ensures Avoids(Split(s, seps)[k], seps) {
          if k > 0 { assert Split(s, seps)[k] == rest[k - 1]; }
        }
      }
    }
  }

  /**
   * The first piece is the longest separator-free prefix: it is a prefix of s
   * and is followed by a separator or reaches the end of s.
   */
  lemma {:induction false} FirstPartIsHead(s: string, seps: set<char>)
    ensures FirstPart(s, seps) <= s
    ensures Avoids(FirstPart(s, seps), seps)
    ensures |FirstPart(s, seps)| == |s| || s[|FirstPart(s, seps)|] in seps
  {
    if s != [] && s[0] !in seps {
      FirstPartIsHead(s[1..], seps);
      var f' := FirstPart(s[1..], seps);
      var f := FirstPart(s, seps);
      assert f == [s[0]] + f';
      forall i | 0 <= i < |f| ensures f[i] !in seps {
        if i > 0 { assert f[i] == f'[i - 1]; }
      }
      if |f| < |s| { assert s[|f|] == s[1..][|f'|]; }
    }
  }

  /**
   * b is the longest separator-free suffix of s: a suffix of s without
   * separators, preceded by a separator or starting at the beginning of s.
   */
  ghost predicate IsBaseName(b: string, s: string, seps: set<char>)
  {
    && |b| <= |s|
    && s[|s| - |b|..] == b
    && Avoids(b, seps)
    && (|b| == |s| || s[|s| - |b| - 1] in seps)
  }

  /** A base name of s[1..] that is shorter than s[1..] is also the base name of s. */
  lemma BaseNameOfTail(b: string, s: string, seps: set<char>)
    requires s != [] && IsBaseName(b, s[1..], seps)
    requires |b| < |s| - 1 || s[0] in seps
    ensures IsBaseName(b, s, seps)
  {
    var s' := s[1..];
    assert s[|s| - |b|..] == s'[|s'| - |b|..];
    if |b| < |s| - 1 {
      assert s[|s| - |b| - 1] == s'[|s'| - |b| - 1];
    }
  }

  /** A string without separators is its own base name. */
  lemma WholeIsBaseName(s: string, seps: set<char>)
    requires Avoids(s, seps)
    ensures IsBaseName(s, s, seps)
  {
    assert s[|s| - |s|..] == s;
  }

  /** A separator-free tail after a non-separator leaves the whole string separator-free. */
  lemma AvoidsCons(s: string, seps: set<char>)
    requires s != [] && s[0] !in seps && Avoids(s[1..], seps)
    ensures Avoids(s, seps)
  {
    forall i | 0 <= i < |s| ensures s[i] !in seps {
      if i > 0 { assert s[i] == s[1..][i - 1]; }
    }
  }

  /** A split has a single piece exactly when the string has no separator. */
  lemma SinglePieceIffAvoids(s: string, seps: set<char>)
    ensures |Split(s, seps)| == 1 <==> Avoids(s, seps)
  {
    SplitCount(s, seps);
    CountOfZero(s, seps);
  }

  /** How the last piece of s relates to the last piece of s[1..]. */
  lemma LastPartStep(s: string, seps: set<char>)
    requires s != []
    ensures s[0] in seps || |Split(s[1..], seps)| > 1 ==> LastPart(s, seps) == LastPart(s[1..], seps)
    ensures s[0] !in seps && |Split(s[1..], seps)| == 1 ==> LastPart(s, seps) == [s[0]] + LastPart(s[1..], seps)
  {
  }

  /** `s.split(sep).pop()` is the base name of s. */
  lemma {:induction false} LastPartIsBaseName(s: string, seps: set<char>)
    ensures IsBaseName(LastPart(s, seps), s, seps)
  {
    if s == [] {
      WholeIsBaseName(s, seps);
    } else {
      var s' := s[1..];
      LastPartIsBaseName(s', seps);
      LastPartStep(s, seps);
      SinglePieceIffAvoids(s', seps);
      var b' := LastPart(s', seps);
      if s[0] in seps {
        BaseNameOfTail(b', s, seps);
      } else if Avoids(s', seps) {
        AvoidsCons(s, seps);
        assert b' == s';
        assert [s[0]] + s' == s;
        WholeIsBaseName(s, seps);
      } else {
        assert |b'| < |s'|;
        BaseNameOfTail(b', s, seps);
      }
    }
  }

  /** The base name is unique, so the last piece is determined by the characterisation. */
  lemma BaseNameUnique(b1: string, b2: string, s: string, seps: set<char>)
    requires IsBaseName(b1, s, seps) && IsBaseName(b2, s, seps)
    ensures b1 == b2
  {
    if |b1| < |b2| {
      assert false;
    } else if |b2| < |b1| {
      assert false;
    }
  }

  /** Prepending a character to the first piece prepends it to the join. */
  lemma JoinPrepend(c: char, parts: seq<string>, sep: char)
    requires |parts| >= 1
    ensures Join([[c] + parts[0]] + parts[1..], sep) == [c] + Join(parts, sep)
  {
    var ps := [[c] + parts[0]] + parts[1..];
    assert ps[0] == [c] + parts[0] && ps[1..] == parts[1..];
    if |parts| > 1 {
      assert Join(ps, sep) == ([c] + parts[0]) + [sep] + Join(parts[1..], sep);
      assert Join(parts, sep) == parts[0] + [sep] + Join(parts[1..], sep);
    }
  }

  /** Joining the pieces of a split with the separator gives back the string. */
  lemma {:induction false} JoinSplit(s: string, sep: char)
    ensures Join(Split(s, {sep}), sep) == s
  {
    if s != [] {
      var s' := s[1..];
      JoinSplit(s', sep);
      var rest := Split(s', {sep});
      assert s == [s[0]] + s';
      if s[0] == sep {
        var parts := [[]] + rest;
        assert Split(s, {sep}) == parts;
        assert parts[0] == [] && parts[1..] == rest;
      } else {
        assert Split(s, {sep}) == [[s[0]] + rest[0]] + rest[1..];
        JoinPrepend(s[0], rest, sep);
      }
    }
  }

  /** Splitting a separator-free prefix followed by more text extends the first piece. */
  lemma {:induction false} SplitFreePrefix(p: string, r: string, seps: set<char>)
    requires Avoids(p, seps)
    ensures Split(p + r, seps) == [p + Split(r, seps)[0]] + Split(r, seps)[1..]
  {
    if p != [] {
      var p' := p[1..];
      assert Avoids(p', seps) by {
        forall i | 0 <= i < |p'| ensures p'[i] !in seps { assert p'[i] == p[i + 1]; }
      }
      SplitFreePrefix(p', r, seps);
      assert (p + r)[1..] == p' + r;
      assert (p + r)[0] == p[0] && p[0] !in seps;
      assert [p[0]] + (p' + Split(r, seps)[0]) == p + Split(r, seps)[0];
    } else {
      var parts := Split(r, seps);
      assert p + r == r && p + parts[0] == parts[0];
      assert parts == [parts[0]] + parts[1..];
    }
  }

  /** Splitting the join of separator-free pieces gives back the pieces. */
  lemma {:induction false} SplitJoin(parts: seq<string>, sep: char)
    requires |parts| >= 1
    requires forall k | 0 <= k < |parts| :: Avoids(parts[k], {sep})
    ensures Split(Join(parts, sep), {sep}) == parts
  {
    if |parts| == 1 {
      SplitFreePrefix(parts[0], [], {sep});
      assert parts[0] + [] == parts[0];
    } else {
      var tail := parts[1..];
      assert forall k | 0 <= k < |tail| :: Avoids(tail[k], {sep}) by {
        forall k | 0 <= k < |tail| ensures Avoids(tail[k], {sep}) { assert tail[k] == parts[k + 1]; }
      }
      SplitJoin(tail, sep);
      var r := [sep] + Join(tail, sep);
      assert Join(parts, sep) == parts[0] + r;
      assert r[0] == sep && r[1..] == Join(tail, sep);
      assert Split(r, {sep}) == [[]] + tail;
      SplitFreePrefix(parts[0], r, {sep});
      assert parts[0] + [] == parts[0];
      assert ([[]] + tail)[1..] == tail;
      assert parts == [parts[0]] + tail;
    }
  }
}
