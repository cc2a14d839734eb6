/** The text form of integration API keys, and the shape test that tells them from signed assertions. */
module ApiKeys {
  import opened Results
  import opened Text

  const LABEL := "cm_live_"
  const PREFIX_LENGTH := 8

  /** The alphabet of base64url, section 5 of RFC 4648. */
  predicate Base64UrlChar(c: char) {
    'A' <= c <= 'Z' || 'a' <= c <= 'z' || '0' <= c <= '9' || c == '-' || c == '_'
  }

  predicate HexChar(c: char) {
    '0' <= c <= '9' || 'a' <= c <= 'f'
  }

  function Mint(prefix: string, secret: string): string {
    LABEL + prefix + "_" + secret
  }

  /** `parseKeyPrefix`: the text between the label and the next underscore, if it has at least eight characters. */
  function ParsePrefix(token: string): Option<string> {
    if !(LABEL <= token) || '_' !in token[|LABEL|..] then None
    else
      var rest := token[|LABEL|..];
      var first := rest[..IndexOf(rest, '_')];
      if |first| < PREFIX_LENGTH then None else Some(first)
  }

  function CountDots(s: string): nat {
    if s == "" then 0 else CountDots(s[..|s| - 1]) + if s[|s| - 1] == '.' then 1 else 0
  }

  /** Exactly two dots, as in a JWS compact token, section 7.1 of RFC 7515. */
  predicate LooksLikeAssertion(token: string) {
    CountDots(token) == 2
  }

  lemma FirstUnderscore(prefix: string, secret: string)
    requires '_' !in prefix
    ensures '_' in prefix + "_" + secret && IndexOf(prefix + "_" + secret, '_') == |prefix|
  {
    var s := prefix + "_" + secret;
    assert s[|prefix|] == '_';
    var i := IndexOf(s, '_');
    assert forall k :: 0 <= k < |prefix| ==> s[k] == prefix[k];
    assert forall k :: 0 <= k < i ==> s[..i][k] == s[k] && s[k] != '_';
  }

  lemma MintedParses(prefix: string, secret: string)
    requires '_' !in prefix && |prefix| >= PREFIX_LENGTH
    ensures ParsePrefix(Mint(prefix, secret)) == Some(prefix)
  {
    var rest := prefix + "_" + secret;
    assert Mint(prefix, secret) == LABEL + rest;
    assert (LABEL + rest)[|LABEL|..] == rest;
    FirstUnderscore(prefix, secret);
    assert rest[..|prefix|] == prefix;
  }

  lemma ParsedWasMinted(token: string)
    requires ParsePrefix(token).Some?
    ensures var prefix := ParsePrefix(token).value;
            '_' !in prefix && |prefix| >= PREFIX_LENGTH && token == Mint(prefix, token[|LABEL| + |prefix| + 1..])
  {
    var rest := token[|LABEL|..];
    var i := IndexOf(rest, '_');
    assert token == LABEL + rest;
    assert rest == rest[..i] + "_" + rest[i + 1..];
    assert rest[i + 1..] == token[|LABEL| + i + 1..];
  }

  /** The tokens with a given prefix are exactly the minted ones, whatever the secret contains. */
  lemma ParseIffMinted(token: string, prefix: string)
    ensures ParsePrefix(token) == Some(prefix) <==>
              '_' !in prefix && |prefix| >= PREFIX_LENGTH && exists secret :: token == Mint(prefix, secret)
  {
    if ParsePrefix(token) == Some(prefix) {
      ParsedWasMinted(token);
    }
    if secret :| '_' !in prefix && |prefix| >= PREFIX_LENGTH && token == Mint(prefix, secret) {
      MintedParses(prefix, secret);
    }
  }

  lemma {:induction false} DotsAreCounted(s: string)
    ensures CountDots(s) == 0 <==> '.' !in s
  {
    if s != "" {
      DotsAreCounted(s[..|s| - 1]);
    }
  }

  lemma {:induction false} DotsAdd(s: string, t: string)
    ensures CountDots(s + t) == CountDots(s) + CountDots(t)
  {
    if t == "" {
      assert s + t == s;
    } else {
      DotsAdd(s, t[..|t| - 1]);
      assert (s + t)[..|s + t| - 1] == s + t[..|t| - 1];
    }
  }

  /** What comes before the last dot and what comes after it. */
  lemma {:induction false} LastDot(s: string) returns (before: string, after: string)
    requires CountDots(s) > 0
    ensures s == before + "." + after && '.' !in after && CountDots(before) == CountDots(s) - 1
  {
    var init := s[..|s| - 1];
    if s[|s| - 1] == '.' {
      before, after := init, "";
    } else {
      before, after := LastDot(init);
      after := after + [s[|s| - 1]];
    }
  }

  /** A token is taken for an assertion exactly if it is three dot-free parts with dots between them. */
  lemma AssertionHasThreeParts(token: string)
    ensures LooksLikeAssertion(token) <==>
              exists header, claims, signature :: '.' !in header && '.' !in claims && '.' !in signature
                                                  && token == header + "." + claims + "." + signature
  {
    if LooksLikeAssertion(token) {
      var rest, signature := LastDot(token);
      var header, claims := LastDot(rest);
      DotsAreCounted(header);
      assert token == header + "." + claims + "." + signature;
    }
    if header, claims, signature :| '.' !in header && '.' !in claims && '.' !in signature
                                    && token == header + "." + claims + "." + signature {
      DotsAdd(header + "." + claims + ".", signature);
      DotsAdd(header + "." + claims, ".");
      DotsAdd(header + ".", claims);
      DotsAdd(header, ".");
      DotsAreCounted(header);
      DotsAreCounted(claims);
      DotsAreCounted(signature);
    }
  }

  /** Every key that can be minted parses back to its own prefix and is never taken for an assertion. */
  lemma MintedKeysAreRouted(prefix: string, secret: string)
    requires |prefix| == PREFIX_LENGTH && forall i :: 0 <= i < |prefix| ==> HexChar(prefix[i])
    requires forall i :: 0 <= i < |secret| ==> Base64UrlChar(secret[i])
    ensures ParsePrefix(Mint(prefix, secret)) == Some(prefix)
    ensures !LooksLikeAssertion(Mint(prefix, secret))
  {
    MintedParses(prefix, secret);
    DotsAreCounted(Mint(prefix, secret));
  }
}
