/** roles_scopes.go: the scope name grammar and the reserved prefixes. */
module ScopeGrammar {
  import opened Encodings

  predicate IsScopeChar(c: char) {
    'a' <= c <= 'z' || '0' <= c <= '9' || c == '_'
  }

  ghost predicate ScopeChars(s: string) {
    forall i :: 0 <= i < |s| ==> 'a' <= s[i] <= 'z' || '0' <= s[i] <= '9' || s[i] == '_'
  }

  /** `^[a-z0-9_]{1,20}:[a-z0-9_]{1,28}$` read from left to right: `seen` characters of the current
      repetition have been taken, and `colon` says whether the separator is behind us. */
  predicate MatchFrom(s: string, colon: bool, seen: nat) {
    if |s| == 0 then colon && seen >= 1
    else if s[0] == ':' then !colon && seen >= 1 && MatchFrom(s[1..], true, 0)
    else IsScopeChar(s[0]) && seen < (if colon then 28 else 20) && MatchFrom(s[1..], colon, seen + 1)
  }

  predicate MatchScope(name: string) {
    MatchFrom(name, false, 0)
  }

  /** strings.SplitN(name, ":", 2)[0] */
  function ScopePrefix(name: string): string {
    name[..IndexOf(name, ':')]
  }

  function ScopeAction(name: string): string {
    if IndexOf(name, ':') == |name| then "" else name[IndexOf(name, ':') + 1..]
  }

  ghost predicate ScopeShape(prefix: string, action: string) {
    1 <= |prefix| <= 20 && 1 <= |action| <= 28 && ScopeChars(prefix) && ScopeChars(action)
  }

  /** The name is the prefix and the action around one colon. */
  ghost predicate Spells(name: string, prefix: string, action: string) {
    ScopeShape(prefix, action) && name == prefix + ":" + action
  }

  lemma {:induction false} MatchAction(s: string, seen: nat)
    requires seen <= 28
    ensures MatchFrom(s, true, seen) <==> ScopeChars(s) && 1 <= seen + |s| <= 28
  {
    if |s| > 0 {
      if seen < 28 {
        MatchAction(s[1..], seen + 1);
      }
      assert ScopeChars(s) <==> IsScopeChar(s[0]) && ScopeChars(s[1..]) by {
        assert s == [s[0]] + s[1..];
      }
    }
  }

  lemma {:induction false} MatchPrefix(s: string, seen: nat)
    requires seen <= 20
    ensures var i := IndexOf(s, ':');
            MatchFrom(s, false, seen) <==>
            i < |s| && ScopeChars(s[..i]) && 1 <= seen + i <= 20 && MatchFrom(s[i + 1..], true, 0)
  {
    if |s| > 0 && s[0] != ':' {
      var i := IndexOf(s, ':');
      assert i == IndexOf(s[1..], ':') + 1;
      assert s[..i] == [s[0]] + s[1..][..i - 1];
      assert ScopeChars(s[..i]) <==> IsScopeChar(s[0]) && ScopeChars(s[1..][..i - 1]);
      if i < |s| {
        assert s[i + 1..] == s[1..][i..];
      }
      if seen < 20 {
        MatchPrefix(s[1..], seen + 1);
      }
    }
  }

  /** The matcher accepts exactly the names made of a prefix of 1 to 20 and an action of 1 to 28 lower-case
      letters, digits and underscores around one colon; such a name splits and rejoins to itself. */
  lemma MatchScopeExactly(name: string)
    ensures MatchScope(name) <==> exists prefix, action :: Spells(name, prefix, action)
    ensures MatchScope(name) ==> Spells(name, ScopePrefix(name), ScopeAction(name)) && ':' !in ScopeAction(name)
  {
    var i := IndexOf(name, ':');
    MatchPrefix(name, 0);
    if i < |name| {
      MatchAction(name[i + 1..], 0);
      assert name == name[..i] + ":" + name[i + 1..];
    }
    assert MatchScope(name) ==> Spells(name, ScopePrefix(name), ScopeAction(name));
    forall prefix, action | Spells(name, prefix, action)
      ensures MatchScope(name)
    {
      SpelledParts(name, prefix, action);
    }
  }

  lemma SpelledParts(name: string, prefix: string, action: string)
    requires Spells(name, prefix, action)
    ensures ScopePrefix(name) == prefix && ScopeAction(name) == action && MatchScope(name)
  {
    assert name[..|prefix|] == prefix && name[|prefix| + 1..] == action;
    IndexOfIs(name, ':', |prefix|);
    MatchPrefix(name, 0);
    MatchAction(action, 0);
  }

  /** With a given prefix, a name of the grammar is spelled with that prefix. */
  lemma SpelledWith(name: string, prefix: string)
    ensures MatchScope(name) && ScopePrefix(name) == prefix <==> exists action :: Spells(name, prefix, action)
  {
    if MatchScope(name) && ScopePrefix(name) == prefix {
      MatchScopeExactly(name);
      assert Spells(name, prefix, ScopeAction(name));
    }
    forall action | Spells(name, prefix, action)
      ensures MatchScope(name) && ScopePrefix(name) == prefix
    {
      SpelledParts(name, prefix, action);
    }
  }
}
