/** Postgres pattern matching as TypeORM's `ILike` issues it: `s ILIKE p`, where in
    `p` a `%` stands for any run of characters, `_` for any one character and a
    backslash makes the next character literal. The services match names against
    the pattern `%name%` built from a client-supplied name, so that name's own `%`
    and `_` act as wildcards too. */
module Like {
  import opened Strings

  /** `s LIKE p`. A pattern ending in a lone backslash is an error in Postgres; no
      pattern of the form `%name%` ends that way, and here such a backslash is
      matched literally. */
  function Like(s: string, p: string): bool
    decreases |p| + |s|
  {
    if |p| == 0 then |s| == 0
    else if p[0] == '%' then Like(s, p[1..]) || (|s| > 0 && Like(s[1..], p))
    else if p[0] == '_' then |s| > 0 && Like(s[1..], p[1..])
    else if p[0] == '\\' && |p| >= 2 then |s| > 0 && s[0] == p[1] && Like(s[1..], p[2..])
    else |s| > 0 && s[0] == p[0] && Like(s[1..], p[1..])
  }

  /** `s ILIKE p`: both sides case-folded first. */
  function ILike(s: string, p: string): bool
  {
    Like(Lower(s), Lower(p))
  }

  /** The pattern `%${name}%` the services interpolate. */
  function ContainsPattern(name: string): string
  {
    "%" + name + "%"
  }

  /** A name in which no character means anything to LIKE. */
  predicate Literal(name: string)
  {
    '%' !in name && '_' !in name && '\\' !in name
  }

  /** `needle` occurs in `hay` as a contiguous substring. */
  predicate Contains(hay: string, needle: string)
  {
    exists k :: 0 <= k <= |hay| && needle <= hay[k..]
  }

  lemma {:induction false} PercentMatchesAll(s: string)
    ensures Like(s, "%")
    decreases |s|
  {
    assert "%"[1..] == "";
    if |s| > 0 {
      PercentMatchesAll(s[1..]);
    }
  }

  /** A literal followed by `%` matches exactly the strings it is a prefix of. */
  lemma {:induction false} LiteralThenPercent(s: string, q: string)
    requires Literal(q)
    ensures Like(s, q + "%") <==> q <= s
    decreases |q|
  {
    if |q| == 0 {
      assert q + "%" == "%";
      PercentMatchesAll(s);
    } else {
      var p := q + "%";
      assert p[0] == q[0];
      assert p[1..] == q[1..] + "%";
      if |s| > 0 {
        LiteralThenPercent(s[1..], q[1..]);
        assert q <= s <==> s[0] == q[0] && q[1..] <= s[1..];
      }
    }
  }

  /** A leading `%` lets the rest of the pattern match any suffix. */
  lemma {:induction false} LeadingPercent(s: string, r: string)
    ensures Like(s, "%" + r) <==> exists k :: 0 <= k <= |s| && Like(s[k..], r)
    decreases |s|
  {
    var p := "%" + r;
    assert p[1..] == r;
    assert s[0..] == s;
    if |s| > 0 {
      LeadingPercent(s[1..], r);
      if Like(s[1..], p) {
        var k :| 0 <= k <= |s| - 1 && Like(s[1..][k..], r);
        assert s[1..][k..] == s[k + 1..];
      }
      if exists k :: 0 <= k <= |s| && Like(s[k..], r) {
        var k :| 0 <= k <= |s| && Like(s[k..], r);
        if k > 0 {
          assert s[1..][k - 1..] == s[k..];
        }
      }
    }
  }

  /** For a name without wildcard characters, `LIKE '%name%'` is substring search. */
  lemma ContainsPatternIsSubstring(s: string, name: string)
    requires Literal(name)
    ensures Like(s, ContainsPattern(name)) <==> Contains(s, name)
  {
    assert ContainsPattern(name) == "%" + (name + "%");
    LeadingPercent(s, name + "%");
    forall k | 0 <= k <= |s|
      ensures Like(s[k..], name + "%") <==> name <= s[k..]
    {
      LiteralThenPercent(s[k..], name);
    }
  }

  lemma LowerKeepsLiteral(name: string)
    requires Literal(name)
    ensures Literal(Lower(name))
  {
    forall i | 0 <= i < |name|
      ensures Lower(name)[i] != '%' && Lower(name)[i] != '_' && Lower(name)[i] != '\\'
    {
      assert name[i] in name;
    }
  }

  /** The case-insensitive form: for a name without wildcard characters,
      `s ILIKE '%name%'` holds exactly when lower-cased `s` contains lower-cased
      `name`. */
  lemma ILikeIsCaseInsensitiveSubstring(s: string, name: string)
    requires Literal(name)
    ensures ILike(s, ContainsPattern(name)) <==> Contains(Lower(s), Lower(name))
  {
    LowerAppend("%" + name, "%");
    LowerAppend("%", name);
    assert Lower(ContainsPattern(name)) == ContainsPattern(Lower(name));
    LowerKeepsLiteral(name);
    ContainsPatternIsSubstring(Lower(s), Lower(name));
  }

  /** The wildcard consequence: the name `_` makes `%_%`, which every non-empty
      string matches, although no such string need contain an underscore. */
  lemma UnderscoreNameMatchesEveryNonEmpty(s: string)
    requires |s| > 0
    ensures ILike(s, ContainsPattern("_"))
  {
    var t := Lower(s);
    assert Lower(ContainsPattern("_")) == "%_%";
    var p := "%_%";
    assert p[1..] == "_%";
    assert p[1..][1..] == "%";
    PercentMatchesAll(t[1..]);
    assert Like(t, p[1..]);
  }

  /** A name without wildcards matches its own containment pattern, so a row
      always conflicts with a second one of the same name. */
  lemma MatchesOwnPattern(name: string)
    requires Literal(name)
    ensures ILike(name, ContainsPattern(name))
  {
    ILikeIsCaseInsensitiveSubstring(name, name);
    assert Lower(name) <= Lower(name)[0..];
  }
}
