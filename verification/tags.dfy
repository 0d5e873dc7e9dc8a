/** The allow-list of cost-allocation tags, and what it means for the queries and keys there can be. */
module AllowedTags {
  import opened CostTypes
  import opened QueryKeys

  /** White space as Unicode defines it. */
  predicate Space(c: char) {
    || c in {'\t', '\n', '\U{000B}', '\U{000C}', '\r', ' ', '\U{0085}', '\U{00A0}', '\U{1680}'}
    || '\U{2000}' <= c <= '\U{200A}'
    || c in {'\U{2028}', '\U{2029}', '\U{202F}', '\U{205F}', '\U{3000}'}
  }

  function TrimLeft(s: string): string {
    if s != "" && Space(s[0]) then TrimLeft(s[1..]) else s
  }

  function TrimRight(s: string): string {
    if s != "" && Space(s[|s| - 1]) then TrimRight(s[..|s| - 1]) else s
  }

  function Trim(s: string): string {
    TrimRight(TrimLeft(s))
  }

  /** Some text without white space at either end. */
  predicate Tidy(s: string) {
    s != "" && !Space(s[0]) && !Space(s[|s| - 1])
  }

  lemma {:induction false} TrimRightKeepsHead(s: string)
    requires s != "" && !Space(s[0])
    ensures Tidy(TrimRight(s))
  {
    if Space(s[|s| - 1]) {
      TrimRightKeepsHead(s[..|s| - 1]);
    }
  }

  lemma {:induction false} TrimLeftStarts(s: string)
    ensures TrimLeft(s) != "" ==> !Space(TrimLeft(s)[0])
  {
    if s != "" && Space(s[0]) {
      TrimLeftStarts(s[1..]);
    }
  }

  /** Trimming leaves tidy text or nothing, and leaves tidy text alone. */
  lemma TrimTidies(s: string)
    ensures Trim(s) == "" || Tidy(Trim(s))
    ensures Tidy(s) <==> s != "" && Trim(s) == s
  {
    TrimLeftStarts(s);
    if TrimLeft(s) != "" {
      TrimRightKeepsHead(TrimLeft(s));
    }
  }

  ghost predicate AllSpace(s: string) {
    forall i :: 0 <= i < |s| ==> Space(s[i])
  }

  lemma AllSpaceJoin(a: string, b: string)
    requires AllSpace(a) && AllSpace(b)
    ensures AllSpace(a + b)
  {
  }

  lemma {:induction false} TrimLeftTakesSpace(s: string) returns (space: string)
    ensures AllSpace(space) && s == space + TrimLeft(s)
  {
    if s != "" && Space(s[0]) {
      var more := TrimLeftTakesSpace(s[1..]);
      space := [s[0]] + more;
      AllSpaceJoin([s[0]], more);
      assert s == [s[0]] + s[1..];
    } else {
      space := "";
    }
  }

  lemma {:induction false} TrimRightTakesSpace(s: string) returns (space: string)
    ensures AllSpace(space) && s == TrimRight(s) + space
  {
    if s != "" && Space(s[|s| - 1]) {
      var more := TrimRightTakesSpace(s[..|s| - 1]);
      space := more + [s[|s| - 1]];
      AllSpaceJoin(more, [s[|s| - 1]]);
      assert s == s[..|s| - 1] + [s[|s| - 1]];
    } else {
      space := "";
    }
  }

  lemma Rejoin(a: string, b: string, c: string)
    ensures a + b + c == a + (b + c)
  {
  }

  /** Text is white space, then its trimmed form, then white space. */
  lemma TrimTakesSpace(s: string) returns (before: string, after: string)
    ensures AllSpace(before) && AllSpace(after) && s == before + Trim(s) + after
  {
    var rest := TrimLeft(s);
    before := TrimLeftTakesSpace(s);
    after := TrimRightTakesSpace(rest);
    Rejoin(before, Trim(s), after);
  }

  /** The white space there is: twenty-five code points. */
  lemma SpacesExact(c: char)
    ensures Space(c) <==>
      || c as int in {9, 10, 11, 12, 13, 32, 133, 160, 5760, 8232, 8233, 8239, 8287, 12288}
      || 8192 <= c as int <= 8202
  {
  }

  ghost predicate Configured(t: string, keys: seq<string>) {
    exists i :: 0 <= i < |keys| && Trim(keys[i]) == t
  }

  method AllowTags(keys: seq<string>) returns (allowed: set<string>)
    ensures forall t :: t in allowed <==> Tidy(t) && Configured(t, keys)
    ensures |allowed| <= |keys|
  {
    allowed := {};
    for i := 0 to |keys|
      invariant forall t :: t in allowed <==> Tidy(t) && exists j :: 0 <= j < i && Trim(keys[j]) == t
      invariant |allowed| <= i
    {
      TrimTidies(keys[i]);
      var k := Trim(keys[i]);
      if k != "" {
        allowed := allowed + {k};
      }
    }
  }

  /**
   * The surface the allow-list opens: whatever is configured, a query gets past normalisation
   * only with one of five dimensions or a tidy configured tag, and n configured keys allow at
   * most 739 * (5 + n) + 1 cache keys.
   */
  lemma SurfaceIsClosed(keys: seq<string>, allowed: set<string>, q: Query)
    requires forall t :: t in allowed <==> Tidy(t) && Configured(t, keys)
    requires |allowed| <= |keys|
    ensures Normalize(q, allowed).Success? ==>
      if IsTag(q.groupBy) then Tidy(q.groupBy[|TAG_PREFIX|..]) && Configured(q.groupBy[|TAG_PREFIX|..], keys)
      else q.groupBy in ValidGroupBys()
    ensures Normalize(q, allowed).Success? ==> CostsKey(Normalize(q, allowed).value) in AllKeys(allowed)
    ensures |AllKeys(allowed)| <= 739 * (5 + |keys|) + 1
  {
    KeySpace(allowed);
    NormalizeReachesNormal(q, allowed);
    if Normalize(q, allowed).Success? {
      NormalKeyIsAKey(Normalize(q, allowed).value, allowed);
    }
  }
}
