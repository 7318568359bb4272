/** `NetworkCapture` of src/helpers.js: the URL classifiers used when logging
    traffic, and the token extractor applied to a serialised JSON body. */
module NetworkCapture {
  import opened Wrappers
  import opened Strings

  /** The substrings each classifier looks for, in the order it tests them. */
  const ApiMarkers: seq<string> := ["/api/", "/v3/", "/v2/", ".json"]
  const AuthMarkers: seq<string> := ["auth", "login", "token", "jwks", "oauth", "session"]
  const AttendanceMarkers: seq<string> := ["attendance", "swipe", "punch", "checkin", "check-in"]

  predicate IsApiCall(url: string) {
    Contains(url, "/api/") || Contains(url, "/v3/") || Contains(url, "/v2/") || Contains(url, ".json")
  }

  predicate IsAuthRelated(url: string) {
    Contains(url, "auth") || Contains(url, "login") || Contains(url, "token")
    || Contains(url, "jwks") || Contains(url, "oauth") || Contains(url, "session")
  }

  predicate IsAttendanceRelated(url: string) {
    Contains(url, "attendance") || Contains(url, "swipe") || Contains(url, "punch")
    || Contains(url, "checkin") || Contains(url, "check-in")
  }

  /** `m` occurs at some position of `url`. */
  predicate OccursIn(m: string, url: string) {
    exists i :: 0 <= i <= |url| && m <= url[i..]
  }

  /** Reference definition: some marker of the list occurs in the URL. */
  predicate MarkerAt(url: string, markers: seq<string>) {
    exists m :: m in markers && OccursIn(m, url)
  }

  /** Each classifier holds exactly when one of its markers occurs somewhere
      in the URL. */
  lemma ClassifiersByPosition(url: string)
    ensures IsApiCall(url) <==> MarkerAt(url, ApiMarkers)
    ensures IsAuthRelated(url) <==> MarkerAt(url, AuthMarkers)
    ensures IsAttendanceRelated(url) <==> MarkerAt(url, AttendanceMarkers)
  {
    forall m | m in ApiMarkers + AuthMarkers + AttendanceMarkers
      ensures Contains(url, m) <==> OccursIn(m, url)
    {
      ContainsAt(url, m);
    }
  }

  /** A URL that contains a classified URL is classified the same way. */
  lemma ClassifiersKeptInLargerUrl(p: string, url: string, q: string)
    ensures IsApiCall(url) ==> IsApiCall(p + url + q)
    ensures IsAuthRelated(url) ==> IsAuthRelated(p + url + q)
    ensures IsAttendanceRelated(url) ==> IsAttendanceRelated(p + url + q)
  {
    forall m | m in ApiMarkers + AuthMarkers + AttendanceMarkers && Contains(url, m)
      ensures Contains(p + url + q, m)
    {
      ContainsInfix(p, url, q, m);
    }
  }

  predicate HasLowerLetter(s: string) {
    exists i :: 0 <= i < |s| && 'a' <= s[i] <= 'z'
  }

  lemma LowerLetterIn(s: string, c: char)
    requires c in s && 'a' <= c <= 'z'
    ensures HasLowerLetter(s)
  {
    var i :| 0 <= i < |s| && s[i] == c;
  }

  /** The matching is case-sensitive: a URL without lower-case letters (such
      as "/AUTH/LOGIN") is never auth-related, attendance-related or, as "/v2/",
      "/v3/" and ".json" are lower-case, an API call. */
  lemma UpperCaseUrlNeverClassified(url: string)
    requires !HasLowerLetter(url)
    ensures !IsApiCall(url) && !IsAuthRelated(url) && !IsAttendanceRelated(url)
  {
    forall m | m in ApiMarkers + AuthMarkers + AttendanceMarkers ensures !Contains(url, m) {
      if Contains(url, m) {
        ContainsChars(url, m);
        assert m[1] in m;
        LowerLetterIn(url, m[1]);
      }
    }
  }

  // ---------------------------------------------------------------------
  // extractTokens

  /** The keys `extractTokens` looks for, in the order it tries them. */
  const TokenKeys: seq<string> := ["access_token", "id_token", "refresh_token", "token", "jwt"]

  /** First position at or after `i` that is not white space (`\s*`). */
  function SkipSpaces(s: string, i: nat): (j: nat)
    requires i <= |s|
    ensures i <= j <= |s|
    ensures forall k :: i <= k < j ==> IsSpace(s[k])
    ensures j < |s| ==> !IsSpace(s[j])
    decreases |s| - i
  {
    if i < |s| && IsSpace(s[i]) then SkipSpaces(s, i + 1) else i
  }

  /** End of the run of non-quote characters starting at `i` (`[^"]*`). */
  function QuoteFree(s: string, i: nat): (j: nat)
    requires i <= |s|
    ensures i <= j <= |s|
    ensures forall k :: i <= k < j ==> s[k] != '"'
    ensures j < |s| ==> s[j] == '"'
    decreases |s| - i
  {
    if i < |s| && s[i] != '"' then QuoteFree(s, i + 1) else i
  }

  /** The capture of the pattern `"key"\s*:\s*"([^"]+)"` when a match starts
      at position `i`. The pattern is deterministic: `\s*` cannot swallow ':'
      or '"', and `[^"]+` must stop at the first quote. */
  function MatchAt(s: string, key: string, i: nat): (r: Option<string>)
    requires i <= |s|
    ensures r.Some? ==> |r.value| > 0 && '"' !in r.value
    ensures r.Some? ==> ("\"" + key + "\"") <= s[i..]
  {
    var lit := "\"" + key + "\"";
    if !(lit <= s[i..]) then None
    else
      var a := SkipSpaces(s, i + |lit|);
      if a == |s| || s[a] != ':' then None
      else
        var b := SkipSpaces(s, a + 1);
        if b == |s| || s[b] != '"' then None
        else
          var e := QuoteFree(s, b + 1);
          if e == b + 1 || e == |s| then None
          else Some(s[b + 1..e])
  }

  /** `s.match(pattern)`: the capture of the leftmost match at or after `i`. */
  function Leftmost(s: string, key: string, i: nat): (r: Option<string>)
    requires i <= |s|
    ensures r.Some? ==> |r.value| > 0 && '"' !in r.value
    decreases |s| - i
  {
    var m := MatchAt(s, key, i);
    if m.Some? then m
    else if i == |s| then None
    else Leftmost(s, key, i + 1)
  }

  /** `Leftmost` is the capture at the first position where the pattern
      matches, and is absent exactly when it matches nowhere. */
  lemma LeftmostIsFirst(s: string, key: string, i: nat)
    requires i <= |s|
    ensures Leftmost(s, key, i).Some? ==>
      exists p :: i <= p <= |s| && MatchAt(s, key, p) == Leftmost(s, key, i)
                  && forall q :: i <= q < p ==> MatchAt(s, key, q).None?
    ensures Leftmost(s, key, i).None? <==> forall p :: i <= p <= |s| ==> MatchAt(s, key, p).None?
  {
    LeftmostFound(s, key, i);
    LeftmostAbsent(s, key, i);
  }

  lemma {:induction false} LeftmostFound(s: string, key: string, i: nat)
    requires i <= |s|
    ensures Leftmost(s, key, i).Some? ==>
      exists p :: i <= p <= |s| && MatchAt(s, key, p) == Leftmost(s, key, i)
                  && forall q :: i <= q < p ==> MatchAt(s, key, q).None?
    decreases |s| - i
  {
    if Leftmost(s, key, i).Some? {
      if MatchAt(s, key, i).Some? {
        assert MatchAt(s, key, i) == Leftmost(s, key, i);
      } else {
        LeftmostFound(s, key, i + 1);
        var p :| i + 1 <= p <= |s| && MatchAt(s, key, p) == Leftmost(s, key, i + 1)
                 && forall q :: i + 1 <= q < p ==> MatchAt(s, key, q).None?;
        assert forall q :: i <= q < p ==> MatchAt(s, key, q).None?;
      }
    }
  }

  lemma LeftmostAbsent(s: string, key: string, i: nat)
    requires i <= |s|
    ensures Leftmost(s, key, i).None? <==> forall p :: i <= p <= |s| ==> MatchAt(s, key, p).None?
  {
    if Leftmost(s, key, i).None? {
      NoneMeansNoMatch(s, key, i);
    } else {
      LeftmostFound(s, key, i);
    }
  }

  lemma {:induction false} NoneMeansNoMatch(s: string, key: string, i: nat)
    requires i <= |s| && Leftmost(s, key, i).None?
    ensures forall p :: i <= p <= |s| ==> MatchAt(s, key, p).None?
    decreases |s| - i
  {
    if i < |s| {
      assert MatchAt(s, key, i).None?;
      NoneMeansNoMatch(s, key, i + 1);
    }
  }

  /** The tokens found for the given keys, later keys added last. */
  function TokensFor(s: string, keys: seq<string>): map<string, string> {
    if |keys| == 0 then map[]
    else
      var t := TokensFor(s, keys[..|keys| - 1]);
      var key := keys[|keys| - 1];
      match Leftmost(s, key, 0)
      case Some(v) => t[key := v]
      case None => t
  }

  /** The result of `extractTokens` for the JSON text `s`. */
  function Tokens(s: string): map<string, string> {
    TokensFor(s, TokenKeys)
  }

  /** `extractTokens` on the JSON text of the body: one pattern per key, tried
      in order, each hit stored under its key. */
  method ExtractTokens(dataStr: string) returns (tokens: map<string, string>)
    ensures tokens == Tokens(dataStr)
  {
    tokens := map[];
    for n := 0 to |TokenKeys|
      invariant tokens == TokensFor(dataStr, TokenKeys[..n])
    {
      var key := TokenKeys[n];
      var m := Leftmost(dataStr, key, 0);
      if m.Some? {
        tokens := tokens[key := m.value];
      }
      assert TokenKeys[..n + 1][..n] == TokenKeys[..n];
    }
    assert TokenKeys[..|TokenKeys|] == TokenKeys;
  }

  /** Exactly the keys whose pattern matches are present, each with the
      capture of its leftmost match: non-empty and free of quotes. */
  lemma {:induction false} TokensForFacts(s: string, keys: seq<string>)
    ensures forall k :: k in TokensFor(s, keys) <==> k in keys && Leftmost(s, k, 0).Some?
    ensures forall k :: k in TokensFor(s, keys) ==>
      TokensFor(s, keys)[k] == Leftmost(s, k, 0).value && |TokensFor(s, keys)[k]| > 0 && '"' !in TokensFor(s, keys)[k]
  {
    if |keys| > 0 {
      TokensForFacts(s, keys[..|keys| - 1]);
      assert keys == keys[..|keys| - 1] + [keys[|keys| - 1]];
    }
  }

  /** The keys of the result are among the five token names. */
  lemma TokenKeysOnly(s: string)
    ensures forall k :: k in Tokens(s) ==> k in TokenKeys
    ensures forall k :: k in TokenKeys ==> (k in Tokens(s) <==> Leftmost(s, k, 0).Some?)
  {
    TokensForFacts(s, TokenKeys);
  }

  /** A value under `key` is the capture of the first place where the whole
      pattern matches, and that place starts with the key in its own quotes:
      `"token"` is never matched inside `"access_token"`. */
  lemma TokenComesFromQuotedKey(s: string, key: string)
    requires key in Tokens(s)
    ensures exists p :: 0 <= p <= |s| && ("\"" + key + "\"") <= s[p..]
                        && MatchAt(s, key, p) == Some(Tokens(s)[key])
                        && forall q :: 0 <= q < p ==> MatchAt(s, key, q).None?
  {
    TokensForFacts(s, TokenKeys);
    LeftmostIsFirst(s, key, 0);
  }

  /** A key whose quoted form does not occur in the text gets no entry: a
      body whose only token field is `"access_token"` has no `token` entry,
      since `"access_token"` does not contain `"token"` with its quotes. */
  lemma QuotedKeyRequired(s: string, key: string)
    requires !OccursIn("\"" + key + "\"", s)
    ensures key !in Tokens(s)
  {
    forall p | 0 <= p <= |s| ensures MatchAt(s, key, p).None? { }
    LeftmostIsFirst(s, key, 0);
    TokensForFacts(s, TokenKeys);
  }
}
