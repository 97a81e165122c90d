/**
  Literal text operations the stack is built from:
  - `ReplaceAll(s, tok, v)` is `s.replace(/TOK/g, v)` for a token without regular
    expression metacharacters and a value without `$` patterns: a leftmost,
    non-overlapping scan that replaces every match of `tok` by `v`;
  - `Split(s, sep)` is `s.split(sep)` for a non-empty string separator;
  - `Join(xs, sep)` is `xs.join(sep)`;
  - `Chain(s, subs)` applies a fixed list of replace-alls one after the other.
 */
module Text {

  /** `tok` occurs in `s` starting at position `i`. */
  predicate OccursAt(s: string, tok: string, i: nat) {
    i + |tok| <= |s| && s[i..i + |tok|] == tok
  }

  predicate Occurs(s: string, tok: string) {
    exists i: nat :: i <= |s| && OccursAt(s, tok, i)
  }

  /** No character of `a` appears in `b`. */
  predicate Disjoint(a: string, b: string) {
    forall c :: c in a ==> c !in b
  }

  function ReplaceAll(s: string, tok: string, v: string): string
    requires tok != []
    decreases |s|
  {
    if |s| < |tok| then s
    else if s[..|tok|] == tok then v + ReplaceAll(s[|tok|..], tok, v)
    else [s[0]] + ReplaceAll(s[1..], tok, v)
  }

  /** The pieces of `s` between the leftmost non-overlapping matches of `sep`. */
  function Split(s: string, sep: string): (pieces: seq<string>)
    requires sep != []
    ensures 1 <= |pieces|
    decreases |s|
  {
    if |s| < |sep| then [s]
    else if s[..|sep|] == sep then [[]] + Split(s[|sep|..], sep)
    else
      var rest := Split(s[1..], sep);
      [[s[0]] + rest[0]] + rest[1..]
  }

  function Join(xs: seq<string>, sep: string): string
    decreases |xs|
  {
    if |xs| == 0 then []
    else if |xs| == 1 then xs[0]
    else xs[0] + sep + Join(xs[1..], sep)
  }

  /** The number of matches a replace-all rewrites. */
  function Matches(s: string, tok: string): nat
    requires tok != []
  {
    |Split(s, tok)| - 1
  }

  // ---------------------------------------------------------------------------
  // Join and Split

  /** The first piece of a joined list is where the joined text starts. */
  lemma JoinStartsWithFirst(xs: seq<string>, sep: string)
    requires 1 <= |xs|
    ensures xs[0] <= Join(xs, sep)
  {
  }

  /** Extending the first piece by one character extends the joined text by it. */
  lemma JoinConsHead(c: char, xs: seq<string>, sep: string)
    requires 1 <= |xs|
    ensures Join([[c] + xs[0]] + xs[1..], sep) == [c] + Join(xs, sep)
  {
    var ys := [[c] + xs[0]] + xs[1..];
    if 2 <= |xs| {
      assert ys[1..] == xs[1..];
    }
  }

  /** An occurrence in a suffix is an occurrence in the whole text. */
  lemma SuffixOccurs(s: string, d: nat, tok: string)
    requires d <= |s|
    ensures Occurs(s[d..], tok) ==> Occurs(s, tok)
  {
    if Occurs(s[d..], tok) {
      var i: nat :| i <= |s[d..]| && OccursAt(s[d..], tok, i);
      assert s[d..][i..i + |tok|] == s[i + d..i + d + |tok|];
      assert OccursAt(s, tok, i + d);
    }
  }

  /** Text in which the separator never occurs is a single piece. */
  lemma {:induction false} SplitAbsent(s: string, sep: string)
    requires sep != []
    requires !Occurs(s, sep)
    ensures Split(s, sep) == [s]
    decreases |s|
  {
    if |s| >= |sep| {
      assert !OccursAt(s, sep, 0);
      SuffixOccurs(s, 1, sep);
      SplitAbsent(s[1..], sep);
      assert [s[0]] + s[1..] == s;
    }
  }

  /** Text without the separator's first character is a single piece. */
  lemma SplitWithoutLead(a: string, sep: string)
    requires sep != []
    requires sep[0] !in a
    ensures Split(a, sep) == [a]
  {
    forall i: nat
      ensures !OccursAt(a, sep, i)
    {
      if i + |sep| <= |a| {
        assert a[i..i + |sep|][0] == a[i];
      }
    }
    SplitAbsent(a, sep);
  }

  /** A piece free of the separator's first character ends at the first separator. */
  lemma {:induction false} SplitAfterPiece(a: string, sep: string, t: string)
    requires sep != []
    requires sep[0] !in a
    ensures Split(a + sep + t, sep) == [a] + Split(t, sep)
    decreases |a|
  {
    var s := a + sep + t;
    if |a| == 0 {
      assert s[..|sep|] == sep;
      assert s[|sep|..] == t;
    } else {
      assert s[..|sep|][0] == a[0];
      assert s[1..] == a[1..] + sep + t;
      SplitAfterPiece(a[1..], sep, t);
      assert [a[0]] + a[1..] == a;
    }
  }

  /**
    Splitting a joined list recovers the list, when no piece contains the
    separator's first character.
   */
  lemma {:induction false} SplitJoin(xs: seq<string>, sep: string)
    requires 1 <= |xs| && sep != []
    requires forall k :: 0 <= k < |xs| ==> sep[0] !in xs[k]
    ensures Split(Join(xs, sep), sep) == xs
    decreases |xs|
  {
    if |xs| == 1 {
      SplitWithoutLead(xs[0], sep);
    } else {
      SplitAfterPiece(xs[0], sep, Join(xs[1..], sep));
      SplitJoin(xs[1..], sep);
      assert [xs[0]] + xs[1..] == xs;
    }
  }

  // ---------------------------------------------------------------------------
  // Replace-all against split and join

  /** A replace-all is the split at the token joined back with the value. */
  lemma {:induction false} ReplaceIsSplitJoin(s: string, tok: string, v: string)
    requires tok != []
    ensures ReplaceAll(s, tok, v) == Join(Split(s, tok), v)
    decreases |s|
  {
    if |s| < |tok| {
    } else if s[..|tok|] == tok {
      var rest := Split(s[|tok|..], tok);
      ReplaceIsSplitJoin(s[|tok|..], tok, v);
      assert ([[]] + rest)[1..] == rest;
    } else {
      ReplaceIsSplitJoin(s[1..], tok, v);
      JoinConsHead(s[0], Split(s[1..], tok), v);
    }
  }

  /** Replacing a token by itself changes nothing. */
  lemma {:induction false} ReplaceBySelf(s: string, tok: string)
    requires tok != []
    ensures ReplaceAll(s, tok, tok) == s
    decreases |s|
  {
    if |s| < |tok| {
    } else if s[..|tok|] == tok {
      ReplaceBySelf(s[|tok|..], tok);
      assert s[..|tok|] + s[|tok|..] == s;
    } else {
      ReplaceBySelf(s[1..], tok);
      assert [s[0]] + s[1..] == s;
    }
  }

  /**
    Joining the pieces with the separator gives back the text: the text outside
    the matches is kept, in order.
   */
  lemma {:induction false} JoinSplit(s: string, sep: string)
    requires sep != []
    ensures Join(Split(s, sep), sep) == s
  {
    ReplaceIsSplitJoin(s, sep, sep);
    ReplaceBySelf(s, sep);
  }

  /** A character in front of a separator-free text creates no match except possibly at the start. */
  lemma ConsNoOccurrence(c: char, p: string, sep: string)
    requires !Occurs(p, sep) && !OccursAt([c] + p, sep, 0)
    ensures !Occurs([c] + p, sep)
  {
    var h := [c] + p;
    forall i: nat | 1 <= i && i + |sep| <= |h|
      ensures !OccursAt(h, sep, i)
    {
      assert h[i..i + |sep|] == p[i - 1..i - 1 + |sep|];
      assert !OccursAt(p, sep, i - 1);
    }
  }

  /** A separator-free prefix of a text that starts with no match stays free when the text's first character is put back. */
  lemma PrefixNoOccurrence(c: char, p: string, t: string, sep: string)
    requires p <= t && !Occurs(p, sep)
    requires |sep| <= 1 + |t| && ([c] + t)[..|sep|] != sep
    ensures !Occurs([c] + p, sep)
  {
    var h := [c] + p;
    if |sep| <= |h| {
      assert h[..|sep|] == ([c] + t)[..|sep|];
    }
    ConsNoOccurrence(c, p, sep);
  }

  /** No piece between matches contains the separator. */
  lemma {:induction false} SplitPiecesFree(s: string, sep: string)
    requires sep != []
    ensures forall k :: 0 <= k < |Split(s, sep)| ==> !Occurs(Split(s, sep)[k], sep)
    decreases |s|
  {
    var pieces := Split(s, sep);
    if |s| < |sep| {
      assert forall i: nat :: !OccursAt(s, sep, i);
    } else if s[..|sep|] == sep {
      SplitPiecesFree(s[|sep|..], sep);
      assert forall i: nat :: !OccursAt([], sep, i);
      assert pieces[1..] == Split(s[|sep|..], sep);
    } else {
      var rest := Split(s[1..], sep);
      SplitPiecesFree(s[1..], sep);
      JoinSplit(s[1..], sep);
      JoinStartsWithFirst(rest, sep);
      assert s == [s[0]] + s[1..];
      PrefixNoOccurrence(s[0], rest[0], s[1..], sep);
      assert pieces[0] == [s[0]] + rest[0];
      assert forall k :: 1 <= k < |pieces| ==> pieces[k] == rest[k];
    }
  }

  /** The text is one piece exactly when the separator does not occur in it. */
  lemma SplitSingleIff(s: string, sep: string)
    requires sep != []
    ensures |Split(s, sep)| == 1 <==> !Occurs(s, sep)
  {
    if !Occurs(s, sep) {
      SplitAbsent(s, sep);
    }
    if |Split(s, sep)| == 1 {
      JoinSplit(s, sep);
      SplitPiecesFree(s, sep);
    }
  }

  /** A replace-all of a token that does not occur leaves the text unchanged. */
  lemma ReplaceAbsent(s: string, tok: string, v: string)
    requires tok != []
    requires !Occurs(s, tok)
    ensures ReplaceAll(s, tok, v) == s
  {
    SplitAbsent(s, tok);
    ReplaceIsSplitJoin(s, tok, v);
  }

  // ---------------------------------------------------------------------------
  // What a replace-all can and cannot produce

  /**
    A prefix of the output either already contains a character of the value,
    or is the same prefix of the input.
   */
  lemma {:induction false} PrefixBeforeValue(t: string, tok: string, v: string, m: nat)
    requires tok != [] && v != []
    requires m <= |ReplaceAll(t, tok, v)|
    ensures (m <= |t| && ReplaceAll(t, tok, v)[..m] == t[..m])
         || (exists j :: 0 <= j < m && ReplaceAll(t, tok, v)[j] in v)
    decreases |t|
  {
    var r := ReplaceAll(t, tok, v);
    if |t| < |tok| || m == 0 {
    } else if t[..|tok|] == tok {
      assert r[0] == v[0];
    } else {
      var r' := ReplaceAll(t[1..], tok, v);
      PrefixBeforeValue(t[1..], tok, v, m - 1);
      if m - 1 <= |t[1..]| && r'[..m - 1] == t[1..][..m - 1] {
        assert r[..m] == [t[0]] + r'[..m - 1];
        assert t[..m] == [t[0]] + t[1..][..m - 1];
      } else {
        var j :| 0 <= j < m - 1 && r'[j] in v;
        assert r[j + 1] == r'[j];
      }
    }
  }

  /** A value free of `t2`'s characters, followed by text without `t2`, has no `t2`. */
  lemma NoOccurrenceAfterValue(v: string, r: string, t2: string)
    requires t2 != [] && Disjoint(v, t2) && !Occurs(r, t2)
    ensures !Occurs(v + r, t2)
  {
    var vr := v + r;
    forall i: nat
      ensures !OccursAt(vr, t2, i)
    {
      if |v| <= i && i + |t2| <= |vr| {
        assert vr[i..i + |t2|] == r[i - |v|..i - |v| + |t2|];
        assert !OccursAt(r, t2, i - |v|);
      } else if i < |v| && i + |t2| <= |vr| {
        assert vr[i..i + |t2|][0] == v[i];
        assert v[i] in v && t2[0] in t2;
      }
    }
  }

  /**
    The output of a step that copies the first character has no `t2` at its
    start unless the input had one there.
   */
  lemma NoOccurrenceAtStart(s: string, tok: string, v: string, t2: string)
    requires tok != [] && v != [] && t2 != []
    requires Disjoint(v, t2)
    requires t2 == tok || !Occurs(s, t2)
    requires |tok| <= |s| && s[..|tok|] != tok
    ensures !OccursAt(ReplaceAll(s, tok, v), t2, 0)
  {
    var r := ReplaceAll(s, tok, v);
    if |t2| <= |r| {
      PrefixBeforeValue(s, tok, v, |t2|);
      if |t2| <= |s| && r[..|t2|] == s[..|t2|] {
        if t2 != tok {
          assert !OccursAt(s, t2, 0);
        }
      } else {
        var j :| 0 <= j < |t2| && r[j] in v;
        assert r[..|t2|][j] == r[j];
      }
    }
  }

  /**
    A replace-all with a non-empty value that shares no character with `t2`
    leaves no `t2` behind when `t2` is the replaced token, and creates none
    when `t2` did not occur before.
   */
  lemma {:induction false} NoNewOccurrence(s: string, tok: string, v: string, t2: string)
    requires tok != [] && v != [] && t2 != []
    requires Disjoint(v, t2)
    requires t2 == tok || !Occurs(s, t2)
    ensures !Occurs(ReplaceAll(s, tok, v), t2)
    decreases |s|
  {
    var r := ReplaceAll(s, tok, v);
    if |s| < |tok| {
      assert forall i: nat :: !OccursAt(s, t2, i);
    } else if s[..|tok|] == tok {
      SuffixOccurs(s, |tok|, t2);
      NoNewOccurrence(s[|tok|..], tok, v, t2);
      NoOccurrenceAfterValue(v, ReplaceAll(s[|tok|..], tok, v), t2);
    } else {
      SuffixOccurs(s, 1, t2);
      NoNewOccurrence(s[1..], tok, v, t2);
      var r' := ReplaceAll(s[1..], tok, v);
      NoOccurrenceAtStart(s, tok, v, t2);
      forall i: nat
        ensures !OccursAt(r, t2, i)
      {
        if 1 <= i && i + |t2| <= |r| {
          assert r[i..i + |t2|] == r'[i - 1..i - 1 + |t2|];
          assert !OccursAt(r', t2, i - 1);
        }
      }
    }
  }

  // ---------------------------------------------------------------------------
  // Chains of replace-alls

  /** One `.replace(/token/g, value)` step. */
  datatype Substitution = Substitution(token: string, value: string)

  predicate Applicable(subs: seq<Substitution>) {
    forall k :: 0 <= k < |subs| ==> subs[k].token != []
  }

  /** Every value is non-empty and shares no character with any token of the chain. */
  predicate Separable(subs: seq<Substitution>) {
    && Applicable(subs)
    && forall j, k :: 0 <= j < |subs| && 0 <= k < |subs| ==>
         subs[j].value != [] && Disjoint(subs[j].value, subs[k].token)
  }

  /** The substitutions applied to `s` in list order. */
  function Chain(s: string, subs: seq<Substitution>): string
    requires Applicable(subs)
    decreases |subs|
  {
    if |subs| == 0 then s
    else Chain(ReplaceAll(s, subs[0].token, subs[0].value), subs[1..])
  }

  /** The chain run one `.replace` statement at a time, as the source does. */
  method ApplyInOrder(s: string, subs: seq<Substitution>) returns (r: string)
    requires Applicable(subs)
    ensures r == Chain(s, subs)
  {
    r := s;
    var k := 0;
    while k < |subs|
      invariant 0 <= k <= |subs|
      invariant Applicable(subs[k..])
      invariant Chain(r, subs[k..]) == Chain(s, subs)
    {
      assert subs[k..] == [subs[k]] + subs[k + 1..];
      ChainCons(r, subs[k], subs[k + 1..]);
      r := ReplaceAll(r, subs[k].token, subs[k].value);
      k := k + 1;
    }
  }

  /** A chain starting with `sub` applies `sub` first. */
  lemma ChainCons(s: string, sub: Substitution, rest: seq<Substitution>)
    requires sub.token != [] && Applicable(rest)
    ensures Applicable([sub] + rest)
    ensures Chain(s, [sub] + rest) == Chain(ReplaceAll(s, sub.token, sub.value), rest)
  {
    assert ([sub] + rest)[1..] == rest;
  }

  /** Running one chain and then another is running their concatenation. */
  lemma {:induction false} ChainAppend(s: string, a: seq<Substitution>, b: seq<Substitution>)
    requires Applicable(a) && Applicable(b)
    ensures Applicable(a + b)
    ensures Chain(Chain(s, a), b) == Chain(s, a + b)
    decreases |a|
  {
    if |a| == 0 {
      assert a + b == b;
    } else {
      var s' := ReplaceAll(s, a[0].token, a[0].value);
      assert (a + b)[0] == a[0];
      assert (a + b)[1..] == a[1..] + b;
      ChainAppend(s', a[1..], b);
      assert Chain(s, a) == Chain(s', a[1..]);
      assert Chain(s, a + b) == Chain(s', a[1..] + b);
    }
  }

  /** A chain whose values avoid the characters of `t2` never creates `t2`. */
  lemma {:induction false} ChainKeepsAbsent(s: string, subs: seq<Substitution>, t2: string)
    requires Applicable(subs) && t2 != []
    requires forall j :: 0 <= j < |subs| ==> subs[j].value != [] && Disjoint(subs[j].value, t2)
    requires !Occurs(s, t2)
    ensures !Occurs(Chain(s, subs), t2)
    decreases |subs|
  {
    if |subs| != 0 {
      NoNewOccurrence(s, subs[0].token, subs[0].value, t2);
      ChainKeepsAbsent(ReplaceAll(s, subs[0].token, subs[0].value), subs[1..], t2);
    }
  }

  /** A separable chain leaves none of its tokens in the text, whatever the text. */
  lemma {:induction false} ChainResolves(s: string, subs: seq<Substitution>)
    requires Separable(subs)
    ensures forall k :: 0 <= k < |subs| ==> !Occurs(Chain(s, subs), subs[k].token)
    decreases |subs|
  {
    if |subs| != 0 {
      var s' := ReplaceAll(s, subs[0].token, subs[0].value);
      NoNewOccurrence(s, subs[0].token, subs[0].value, subs[0].token);
      ChainKeepsAbsent(s', subs[1..], subs[0].token);
      ChainResolves(s', subs[1..]);
      assert forall k :: 1 <= k < |subs| ==> subs[k] == subs[1..][k - 1];
    }
  }
}
