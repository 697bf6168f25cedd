/**
 The heuristic test `isValidConfig` applies to the "to" text when the user has chosen to
 be emailed. It is not an address grammar: it only looks at the first '@' and at whether
 both list separators ';' and ',' are used.
 */
module Recipients {
  import opened Text

  /** The test as `isValidConfig` computes it once "yes" is selected. */
  function RecipientCheck(value: string): bool {
    if value == [] then false
    else
      var bothDelimitersExist := Contains(value, ";") && Contains(value, ",");
      var at := IndexOf(value, '@');
      at > 0 && at < |value| - 1 && !bothDelimitersExist
  }

  /**
   What the test accepts, said without positions of first occurrences: the text does
   not start with '@', some '@' stands before its last character, and it does not mix
   the ';' and ',' separators.
   */
  predicate PlausibleRecipients(value: string) {
    |value| >= 2 && value[0] != '@' && '@' in value[..|value| - 1] && !(';' in value && ',' in value)
  }

  /** A one-character `contains` is membership. */
  lemma ContainsChar(s: string, c: char)
    ensures Contains(s, [c]) <==> c in s
  {
    if c in s {
      var i :| 0 <= i < |s| && s[i] == c;
      assert s[i..i + 1] == [c];
      assert MatchAt(s, [c], i);
    }
    if Contains(s, [c]) {
      var i :| MatchAt(s, [c], i);
      assert s[i] == s[i..i + 1][0];
    }
  }

  lemma RecipientCheckMeaning(value: string)
    ensures RecipientCheck(value) <==> PlausibleRecipients(value)
  {
    ContainsChar(value, ';');
    ContainsChar(value, ',');
    if value != [] {
      var at := IndexOf(value, '@');
      IndexOfMeaning(value, '@');
      if PlausibleRecipients(value) {
        var j :| 0 <= j < |value| - 1 && value[..|value| - 1][j] == '@';
        assert value[j] == '@';
        assert at != 0;
      }
      if RecipientCheck(value) {
        assert value[..|value| - 1][at] == '@';
        assert value[0] == value[..at][0];
      }
    }
  }

  /** The cases the component is meant to tell apart. */
  lemma RecipientExamples()
    ensures PlausibleRecipients("a@b.com")
    ensures PlausibleRecipients("a@b;c@d")
    ensures !PlausibleRecipients("")
    ensures !PlausibleRecipients("@abc")
    ensures !PlausibleRecipients("abc@")
    ensures !PlausibleRecipients("a@b;c@d,e@f")
    ensures !PlausibleRecipients("@a@b")
  {
    assert "a@b.com"[..6][1] == '@';
    assert "a@b;c@d"[..6][1] == '@';
    assert "abc@"[..3] == "abc";
    assert "a@b;c@d,e@f"[3] == ';' && "a@b;c@d,e@f"[7] == ',';
  }
}
