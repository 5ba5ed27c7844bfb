/** The string operations the source takes from Go's strings package; letters change case only within
    ASCII. */
module Text {
  /** Unicode white space. */
  predicate IsSpace(c: char) {
    var code := c as int;
    9 <= code <= 13 || code == 0x20 || code == 0x85 || code == 0xA0 || code == 0x1680 || 0x2000 <= code <= 0x200A
    || code == 0x2028 || code == 0x2029 || code == 0x202F || code == 0x205F || code == 0x3000
  }

  lemma AsciiSpaces(c: char)
    requires c as int < 128
    ensures IsSpace(c) <==> c == ' ' || c == '\t' || c == '\n' || c == '\r' || c == 11 as char || c == 12 as char
  {
  }

  function TrimLeft(s: string): (r: string)
    ensures |r| <= |s|
    ensures r == "" || !IsSpace(r[0])
    ensures s != "" && !IsSpace(s[0]) ==> r == s
  {
    if s != "" && IsSpace(s[0]) then TrimLeft(s[1..]) else s
  }

  function TrimRight(s: string): (r: string)
    ensures |r| <= |s| && r == s[..|r|]
    ensures r == "" || !IsSpace(r[|r| - 1])
    ensures s != "" && !IsSpace(s[|s| - 1]) ==> r == s
  {
    if s != "" && IsSpace(s[|s| - 1]) then TrimRight(s[..|s| - 1]) else s
  }

  function TrimSpace(s: string): string {
    TrimRight(TrimLeft(s))
  }

  function Lower(c: char): char {
    if 'A' <= c <= 'Z' then (c as int + 32) as char else c
  }

  /** Capitals become their small letters; every other character stays. */
  lemma LowerMeans(k: nat, c: char)
    requires k < 26
    ensures Lower((65 + k) as char) == (97 + k) as char
    ensures Lower('A') == 'a' && Lower('Z') == 'z'
    ensures c < 'A' || c > 'Z' ==> Lower(c) == c
  {
  }

  function ToLower(s: string): string {
    seq(|s|, i requires 0 <= i < |s| => Lower(s[i]))
  }

  function SpacesToUnderscores(s: string): string {
    seq(|s|, i requires 0 <= i < |s| => if s[i] == ' ' then '_' else s[i])
  }

  predicate OccursAt(s: string, part: string, i: nat) {
    i + |part| <= |s| && s[i..i + |part|] == part
  }

  predicate Contains(s: string, part: string) {
    exists i | 0 <= i <= |s| - |part| :: OccursAt(s, part, i)
  }

  predicate AllSpace(s: string) {
    forall i :: 0 <= i < |s| ==> IsSpace(s[i])
  }

  lemma {:induction false} TrimLeftSkips(lead: string, rest: string)
    requires AllSpace(lead)
    ensures TrimLeft(lead + rest) == TrimLeft(rest)
  {
    if lead == "" {
      assert lead + rest == rest;
    } else {
      assert (lead + rest)[1..] == lead[1..] + rest;
      TrimLeftSkips(lead[1..], rest);
    }
  }

  lemma {:induction false} TrimRightSkips(rest: string, trail: string)
    requires AllSpace(trail)
    ensures TrimRight(rest + trail) == TrimRight(rest)
  {
    if trail == "" {
      assert rest + trail == rest;
    } else {
      var init := trail[..|trail| - 1];
      assert (rest + trail)[..|rest + trail| - 1] == rest + init;
      TrimRightSkips(rest, init);
    }
  }

  /** Trimming takes the white space off both ends and leaves the rest, white space inside included. */
  lemma TrimMeans(lead: string, t: string, trail: string)
    requires AllSpace(lead) && AllSpace(trail)
    requires t == "" || (!IsSpace(t[0]) && !IsSpace(t[|t| - 1]))
    ensures TrimSpace(lead + (t + trail)) == t
  {
    TrimLeftSkips(lead, t + trail);
    if t == "" {
      assert t + trail == trail + "";
      TrimLeftSkips(trail, "");
    } else {
      TrimRightSkips(t, trail);
    }
  }

  lemma {:induction false} LeftKeeps(s: string, k: nat)
    requires k < |s| && !IsSpace(s[k])
    ensures TrimLeft(s) != ""
  {
    if IsSpace(s[0]) {
      LeftKeeps(s[1..], k - 1);
    }
  }

  lemma {:induction false} RightKeeps(s: string, k: nat)
    requires k < |s| && !IsSpace(s[k])
    ensures TrimRight(s) != ""
  {
    if IsSpace(s[|s| - 1]) {
      RightKeeps(s[..|s| - 1], k);
    }
  }

  /** Only white space trims to nothing. */
  lemma BlankIffSpace(s: string)
    ensures TrimSpace(s) == "" <==> AllSpace(s)
  {
    if AllSpace(s) {
      assert s + ("" + "") == s;
      TrimMeans(s, "", "");
    } else {
      var k :| 0 <= k < |s| && !IsSpace(s[k]);
      LeftKeeps(s, k);
      RightKeeps(TrimLeft(s), 0);
    }
  }

  lemma TrimIsIdempotent(s: string)
    ensures TrimSpace(TrimSpace(s)) == TrimSpace(s)
  {
  }

  /** `part` stands somewhere in `s`. */
  lemma ContainsMeans(s: string, before: string, part: string, after: string)
    ensures s == before + part + after ==> Contains(s, part)
    ensures Contains(s, part) ==> exists i: nat :: i + |part| <= |s| && s[..i] + part + s[i + |part|..] == s
  {
    if s == before + part + after {
      assert s[|before|..|before| + |part|] == part;
      assert OccursAt(s, part, |before|);
    }
    if Contains(s, part) {
      var i :| 0 <= i <= |s| - |part| && OccursAt(s, part, i);
      assert s[..i] + part + s[i + |part|..] == s;
    }
  }
}
