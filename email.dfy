/**
  The e-mail shape check both endpoints share: the regular expression
  `^[^\s@]+@[^\s@]+\.[^\s@]+$`. `IsEmail` is the check as code would run it;
  `MatchesRegex` is the regular expression read as the three non-empty runs of
  characters it describes. `IsEmailMatchesRegex` proves that the two agree.
 */
module Email {
  import opened Text
  import opened JsonFile

  /** `[^\s@]+` without the `+`: every character is neither white space nor '@'. */
  predicate Plain(s: string) {
    forall k :: 0 <= k < |s| ==> s[k] != '@' && !IsSpace(s[k])
  }

  /** The regular expression: local part, '@', domain head, '.', domain tail, each part non-empty. */
  ghost predicate MatchesRegex(s: string) {
    exists i, j :: 0 < i && i + 1 < j < |s| - 1 && s[i] == '@' && s[j] == '.'
      && Plain(s[..i]) && Plain(s[i + 1..j]) && Plain(s[j + 1..])
  }

  /** Index of the first `c` in `s`, or -1 (`String.prototype.indexOf`). */
  function IndexOf(s: string, c: char): (r: int)
    ensures -1 <= r < |s|
    ensures r == -1 <==> c !in s
    ensures r >= 0 ==> s[r] == c && c !in s[..r]
  {
    if s == [] then -1
    else if s[0] == c then 0
    else
      var k := IndexOf(s[1..], c);
      if k == -1 then -1
      else
        assert s[1..][..k] == s[1..k + 1];
        k + 1
  }

  /** Some '.' that is neither the first nor the last character. */
  predicate HasInnerDot(d: string) {
    exists j :: 1 <= j < |d| - 1 && d[j] == '.'
  }

  /**
    The accepted shape: no white space, exactly one '@' with something before it,
    and a domain after it holding a '.' that is neither its first nor its last character.
   */
  function IsEmail(s: string): (ok: bool)
    ensures ok ==> NoSpace(s) && '@' in s
    ensures ok ==> |s| >= 5
  {
    && NoSpace(s)
    && var at := IndexOf(s, '@');
    && 0 < at
    && '@' !in s[at + 1..]
    && HasInnerDot(s[at + 1..])
  }

  /** A body property that is truthy, a string, and of the accepted shape. */
  predicate EmailOk(v: Value)
    ensures EmailOk(v) ==> v.Text? && |v.s| >= 5 && Trim(v.s) == v.s
  {
    v.Text? && v.s != "" && IsEmail(v.s)
  }

  lemma IsEmailMatchesRegex(s: string)
    ensures IsEmail(s) <==> MatchesRegex(s)
  {
    if IsEmail(s) {
      EmailToRegex(s);
    }
    if MatchesRegex(s) {
      var i, j :| 0 < i && i + 1 < j < |s| - 1 && s[i] == '@' && s[j] == '.'
        && Plain(s[..i]) && Plain(s[i + 1..j]) && Plain(s[j + 1..]);
      RegexToEmail(s, i, j);
    }
  }

  lemma EmailToRegex(s: string)
    requires IsEmail(s)
    ensures MatchesRegex(s)
  {
    var i := IndexOf(s, '@');
    var d := s[i + 1..];
    var jj :| 1 <= jj < |d| - 1 && d[jj] == '.';
    var j := i + 1 + jj;
    forall k | 0 <= k < i ensures s[..i][k] != '@' && !IsSpace(s[..i][k]) {
      assert s[..i][k] in s[..i];
    }
    var head, tail := s[i + 1..j], s[j + 1..];
    forall k | 0 <= k < |head| ensures head[k] != '@' && !IsSpace(head[k]) {
      assert head[k] == d[k];
    }
    forall k | 0 <= k < |tail| ensures tail[k] != '@' && !IsSpace(tail[k]) {
      assert tail[k] == d[jj + 1 + k];
    }
  }

  lemma RegexToEmail(s: string, i: int, j: int)
    requires 0 < i && i + 1 < j < |s| - 1 && s[i] == '@' && s[j] == '.'
    requires Plain(s[..i]) && Plain(s[i + 1..j]) && Plain(s[j + 1..])
    ensures IsEmail(s)
  {
    forall k | 0 <= k < |s| ensures !IsSpace(s[k]) {
      if k < i {
        assert s[k] == s[..i][k];
      } else if i < k < j {
        assert s[k] == s[i + 1..j][k - i - 1];
      } else if j < k {
        assert s[k] == s[j + 1..][k - j - 1];
      }
    }
    var at := IndexOf(s, '@');
    assert at == i;
    var d := s[i + 1..];
    forall k | 0 <= k < |d| ensures d[k] != '@' {
      if k < j - i - 1 {
        assert d[k] == s[i + 1..j][k];
      } else if k > j - i - 1 {
        assert d[k] == s[j + 1..][k - (j - i)];
      }
    }
    assert d[j - i - 1] == '.';
  }

  /** An accepted address holds no white space, so trimming it changes nothing. */
  lemma TrimKeepsEmail(s: string)
    requires IsEmail(s)
    ensures Trim(s) == s
  {
  }
}
