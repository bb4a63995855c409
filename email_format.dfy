/**
 * The e-mail check shared by the OTP and e-mail/password sign-up routes:
 * the regular expression `^[^\s@]+@[^\s@]+\.[^\s@]+$`, a home-grown shape
 * test (one `@`, a dot somewhere inside the domain part, no white space),
 * not the address grammar of RFC 5322.
 */
module EmailFormat {
  import opened JsStrings

  /** A character of the class `[^\s@]`. */
  predicate Plain(c: char) {
    !IsSpace(c) && c != '@'
  }

  /**
   * The language of the regular expression, written out: an `@` at position
   * `i` and a `.` at position `j`, each of the three runs around them non-empty,
   * and every other character in `[^\s@]`.
   */
  ghost predicate MatchesAt(s: string, i: nat, j: nat) {
    && 0 < i && i + 1 < j && j + 1 < |s|
    && s[i] == '@' && s[j] == '.'
    && forall k :: 0 <= k < |s| && k != i ==> Plain(s[k])
  }

  ghost predicate MatchesPattern(s: string) {
    exists i: nat, j: nat :: MatchesAt(s, i, j)
  }

  predicate NoSpace(s: string) {
    forall k :: 0 <= k < |s| ==> !IsSpace(s[k])
  }

  /** A dot with at least one character on either side of it. */
  predicate HasInnerDot(domain: string) {
    |domain| >= 3 && '.' in domain[1..|domain| - 1]
  }

  /** `emailRegex.test(s)`, computed by splitting at the `@`. */
  predicate IsEmail(s: string) {
    var parts := Split(s, '@');
    && |parts| == 2
    && NoSpace(s)
    && parts[0] != ""
    && HasInnerDot(parts[1])
  }

  /** The computed test accepts exactly the strings the regular expression matches. */
  lemma IsEmailMatchesPattern(s: string)
    ensures IsEmail(s) <==> MatchesPattern(s)
  {
    if IsEmail(s) {
      IsEmailMatches(s);
    }
    if MatchesPattern(s) {
      var i: nat, j: nat :| MatchesAt(s, i, j);
      MatchesIsEmail(s, i, j);
    }
  }

  lemma IsEmailMatches(s: string)
    requires IsEmail(s)
    ensures MatchesPattern(s)
  {
    var parts := Split(s, '@');
    var a, b := parts[0], parts[1];
    JoinSplit(s, '@');
    assert s == a + "@" + b;
    var i := |a|;
    var d :| d in b[1..|b| - 1] && d == '.';
    var j' :| 0 <= j' < |b[1..|b| - 1]| && b[1..|b| - 1][j'] == '.';
    var j := i + 2 + j';
    assert s[j] == b[j' + 1];
    forall k | 0 <= k < |s| && k != i ensures Plain(s[k]) {
      if k < i {
        assert s[k] == a[k];
      } else {
        assert s[k] == b[k - i - 1];
      }
    }
    assert MatchesAt(s, i, j);
  }

  lemma MatchesIsEmail(s: string, i: nat, j: nat)
    requires MatchesAt(s, i, j)
    ensures IsEmail(s)
  {
    var a, b := s[..i], s[i + 1..];
    assert s == a + "@" + b;
    assert '@' !in a by {
      forall k | 0 <= k < |a| ensures a[k] != '@' {
        assert a[k] == s[k];
      }
    }
    assert '@' !in b by {
      forall k | 0 <= k < |b| ensures b[k] != '@' {
        assert b[k] == s[i + 1 + k];
      }
    }
    SplitJoin([a, b], '@');
    assert Join([a, b], '@') == s;
    assert b[1..|b| - 1][j - i - 2] == s[j];
    assert HasInnerDot(b);
    forall k | 0 <= k < |s| ensures !IsSpace(s[k]) {
      if k != i {
        assert Plain(s[k]);
      }
    }
  }

  /** A string with white space anywhere, or with no `@` or two of them, is refused. */
  lemma IsEmailRefuses(s: string)
    ensures !NoSpace(s) ==> !IsEmail(s)
    ensures '@' !in s ==> !IsEmail(s)
    ensures Count(s, '@') >= 2 ==> !IsEmail(s)
  {
    JoinSplit(s, '@');
    CountPositive(s, '@');
  }

  /** A sample of each kind: the shape is accepted, a missing dot or a dot at the end is not. */
  lemma IsEmailExamples()
    ensures IsEmail("a@b.co")
    ensures !IsEmail("a@bco")
    ensures !IsEmail("a@b.")
  {
    MatchesIsEmail("a@b.co", 1, 3);
    NoDotNoMatch("a@bco");
    IsEmailMatchesPattern("a@bco");
    IsEmailMatchesPattern("a@b.");
  }

  /** Without a dot there is no match. */
  lemma NoDotNoMatch(s: string)
    requires '.' !in s
    ensures !MatchesPattern(s)
  {
    forall i: nat, j: nat ensures !MatchesAt(s, i, j) {
      if j < |s| {
        assert s[j] in s;
      }
    }
  }
}
