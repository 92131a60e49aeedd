/** String tests shared by the services. */
module Text {
  predicate IsSpace(c: char) {
    || '\t' <= c <= '\r' || c == ' ' || c == '\U{00A0}' || c == '\U{1680}' || '\U{2000}' <= c <= '\U{200A}'
    || c == '\U{2028}' || c == '\U{2029}' || c == '\U{202F}' || c == '\U{205F}' || c == '\U{3000}' || c == '\U{FEFF}'
  }

  /** The white space and line terminators of ECMA-262, sections 12.2 and 12.3, by code point. */
  lemma SpacesAre(c: char)
    ensures IsSpace(c) <==> c as int in {9, 10, 11, 12, 13, 32, 160, 5760, 8192, 8193, 8194, 8195, 8196, 8197, 8198,
                                         8199, 8200, 8201, 8202, 8232, 8233, 8239, 8287, 12288, 65279}
  {}

  /** True when trim() leaves nothing. */
  predicate Blank(s: string) {
    forall i :: 0 <= i < |s| ==> IsSpace(s[i])
  }

  /** trim(): both ends lose their white space. */
  function Trim(s: string): string {
    if s != [] && IsSpace(s[0]) then Trim(s[1..])
    else if s != [] && IsSpace(s[|s| - 1]) then Trim(s[..|s| - 1])
    else s
  }

  /** t is s without its first f and from its b-th character on, white space all. */
  predicate Took(s: string, t: string, f: nat, b: nat) {
    f <= b <= |s| && t == s[f..b] && Blank(s[..f]) && Blank(s[b..])
  }

  lemma TakesFirst(s: string, t: string, f: nat, b: nat)
    requires s != [] && IsSpace(s[0]) && Took(s[1..], t, f, b)
    ensures Took(s, t, f + 1, b + 1)
  {
    assert s[1..][f..b] == s[f + 1..b + 1] && s[1..][b..] == s[b + 1..];
    var front := s[..f + 1];
    forall i | 0 <= i < |front| ensures IsSpace(front[i]) {
      if i > 0 { assert front[i] == s[1..][..f][i - 1]; }
    }
  }

  lemma TakesLast(s: string, t: string, f: nat, b: nat)
    requires s != [] && IsSpace(s[|s| - 1]) && Took(s[..|s| - 1], t, f, b)
    ensures Took(s, t, f, b)
  {
    var init := s[..|s| - 1];
    assert init[f..b] == s[f..b] && init[..f] == s[..f];
    var back := s[b..];
    forall i | 0 <= i < |back| ensures IsSpace(back[i]) {
      if b + i < |init| { assert back[i] == init[b..][i]; }
    }
  }

  /** trim() takes off white space in front and behind, and nothing else. */
  lemma {:induction false} TrimTakes(s: string) returns (f: nat, b: nat)
    ensures Took(s, Trim(s), f, b)
    decreases |s|
  {
    if s != [] && IsSpace(s[0]) {
      f, b := TrimTakes(s[1..]);
      TakesFirst(s, Trim(s), f, b);
      f, b := f + 1, b + 1;
    } else if s != [] && IsSpace(s[|s| - 1]) {
      f, b := TrimTakes(s[..|s| - 1]);
      TakesLast(s, Trim(s), f, b);
    } else {
      f, b := 0, |s|;
      assert s[0..|s|] == s;
    }
  }

  /** Nothing is left exactly of a blank string, and what is left starts and ends in other characters. */
  lemma {:induction false} TrimLeaves(s: string)
    ensures Trim(s) == [] <==> Blank(s)
    ensures var t := Trim(s); t != [] ==> !IsSpace(t[0]) && !IsSpace(t[|t| - 1])
    decreases |s|
  {
    if s != [] && IsSpace(s[0]) {
      TrimLeaves(s[1..]);
    } else if s != [] && IsSpace(s[|s| - 1]) {
      TrimLeaves(s[..|s| - 1]);
    }
  }

}
