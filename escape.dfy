/** `escapeForRegex`: makes a driver name or plate usable inside a regular
    expression that must match it literally, by putting a backslash before
    every regular-expression metacharacter. */
module RegexEscape {

  /** The characters of the class `[.*+?^${}()|[\]\\]`. */
  predicate IsMeta(c: char) {
    c in ".*+?^${}()|[]\\"
  }

  /** How many metacharacters `s` holds. */
  function MetaCount(s: string): nat {
    if s == [] then 0 else (if IsMeta(s[0]) then 1 else 0) + MetaCount(s[1..])
  }

  /** `text.replace(/[.*+?^${}()|[\]\\]/g, '\\$&')`. */
  function EscapeForRegex(s: string): (r: string)
    ensures |r| == |s| + MetaCount(s)
    ensures s != [] ==> r[0] == (if IsMeta(s[0]) then '\\' else s[0])
  {
    if s == [] then []
    else if IsMeta(s[0]) then ['\\', s[0]] + EscapeForRegex(s[1..])
    else [s[0]] + EscapeForRegex(s[1..])
  }

  /** The inverse of the escaping: drop each backslash and keep the character after it. */
  function Unescape(r: string): string {
    if r == [] then []
    else if r[0] == '\\' && |r| >= 2 then [r[1]] + Unescape(r[2..])
    else [r[0]] + Unescape(r[1..])
  }

  /** Removing the inserted backslashes gives back the original text. */
  lemma {:induction false} UnescapeEscape(s: string)
    ensures Unescape(EscapeForRegex(s)) == s
  {
    if s != [] {
      UnescapeEscape(s[1..]);
      var r := EscapeForRegex(s);
      if IsMeta(s[0]) {
        assert r[2..] == EscapeForRegex(s[1..]);
      } else {
        assert r[1..] == EscapeForRegex(s[1..]);
      }
    }
  }

  /** Text without metacharacters comes out unchanged. */
  lemma {:induction false} EscapePlainText(s: string)
    requires forall i :: 0 <= i < |s| ==> !IsMeta(s[i])
    ensures EscapeForRegex(s) == s
  {
    if s != [] {
      EscapePlainText(s[1..]);
    }
  }

  /** Escaping distributes over concatenation, so it works character by character. */
  lemma {:induction false} EscapeAppend(a: string, b: string)
    ensures EscapeForRegex(a + b) == EscapeForRegex(a) + EscapeForRegex(b)
  {
    if a != [] {
      assert (a + b)[0] == a[0] && (a + b)[1..] == a[1..] + b;
      EscapeAppend(a[1..], b);
    } else {
      assert a + b == b;
    }
  }

  /** Every metacharacter of the input appears in the escaped text right after a backslash. */
  lemma {:induction false} EscapedMetaIsQuoted(s: string, i: nat)
    requires i < |s|
    ensures IsMeta(s[i]) ==>
              (exists k :: 0 <= k < |EscapeForRegex(s)| - 1
                 && EscapeForRegex(s)[k] == '\\' && EscapeForRegex(s)[k + 1] == s[i])
  {
    var head := if IsMeta(s[0]) then ['\\', s[0]] else [s[0]];
    var rest := EscapeForRegex(s[1..]);
    var r := EscapeForRegex(s);
    assert r == head + rest;
    if i == 0 {
      if IsMeta(s[0]) {
        assert 0 < |r| - 1 && r[0] == '\\' && r[0 + 1] == s[0];
      }
    } else {
      EscapedMetaIsQuoted(s[1..], i - 1);
      assert s[1..][i - 1] == s[i];
      if IsMeta(s[i]) {
        var k :| 0 <= k < |rest| - 1 && rest[k] == '\\' && rest[k + 1] == s[i];
        var j := |head| + k;
        assert r[j] == rest[k] && r[j + 1] == rest[k + 1];
        assert 0 <= j < |r| - 1 && r[j] == '\\' && r[j + 1] == s[i];
      }
    }
  }
}
