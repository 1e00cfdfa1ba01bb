/** `zfill` and `isRemote`. */
module Strings {

  /** `n` zero characters. */
  function Zeros(n: nat): (z: string)
    ensures |z| == n
    ensures forall i :: 0 <= i < n ==> z[i] == '0'
  {
    seq(n, _ => '0')
  }

  /** How many zeros `zfill` puts in front: enough to reach `length`, none when the input is already as long. */
  function PadCount(inputLength: nat, length: int): nat
  {
    if length > inputLength then length - inputLength else 0
  }

  /**
   * `zfill(input, length)` on the string form of `input`: prepends `'0'` one at a
   * time while the string is shorter than `length`.
   */
  method Zfill(input: string, length: int) returns (num: string)
    ensures num == Zeros(PadCount(|input|, length)) + input
    ensures |num| == if length > |input| then length else |input|
  {
    num := input;
    while |num| < length
      invariant |input| <= |num|
      invariant |num| <= length || num == input
      invariant num == Zeros(|num| - |input|) + input
      decreases length - |num|
    {
      num := "0" + num;
    }
  }

  /** The zero-padded string ends with the input and everything before it is '0'. */
  lemma ZeroPaddedShape(input: string, length: int)
    ensures var padded := Zeros(PadCount(|input|, length)) + input;
      && padded[|padded| - |input|..] == input
      && forall i :: 0 <= i < |padded| - |input| ==> padded[i] == '0'
  {
    var padded := Zeros(PadCount(|input|, length)) + input;
    assert padded[|padded| - |input|..] == input;
  }

  /** Padding an already padded string to the same length changes nothing. */
  lemma ZeroPadIdempotent(input: string, length: int)
    ensures var once := Zeros(PadCount(|input|, length)) + input;
      Zeros(PadCount(|once|, length)) + once == once
  {
    var once := Zeros(PadCount(|input|, length)) + input;
    assert PadCount(|once|, length) == 0;
    assert Zeros(0) + once == once;
  }

  predicate StartsWith(s: string, prefix: string)
  {
    |prefix| <= |s| && s[..|prefix|] == prefix
  }

  /** The local-URL pattern of `isRemote`: one of these prefixes, case-sensitive, at the very start. */
  predicate IsLocal(url: string)
  {
    || StartsWith(url, "file:")
    || StartsWith(url, "data:")
    || StartsWith(url, "http://localhost:")
    || StartsWith(url, "http://localhost/")
  }

  /** `isRemote(url)`, read as a truth value: the empty string is not remote, nor is a local URL. */
  function IsRemote(url: string): (remote: bool)
    ensures url == "" ==> !remote
  {
    url != "" && !IsLocal(url)
  }

  /** Whether a URL is local is decided by its first characters: what follows a local prefix never matters. */
  lemma LocalIsPrefixClosed(url: string, rest: string)
    requires url != "" && !IsRemote(url)
    ensures !IsRemote(url + rest)
  {
    var s := url + rest;
    forall p: string | StartsWith(url, p) ensures StartsWith(s, p) {
      assert s[..|p|] == url[..|p|];
    }
  }

  /** `localhost` must be followed by ':' or '/', the scheme must be exactly `http:` and the match is case-sensitive. */
  lemma IsRemoteExamples()
    ensures !IsRemote("http://localhost:8080/a.css")
    ensures !IsRemote("http://localhost/")
    ensures !IsRemote("file:///home/a.css")
    ensures !IsRemote("data:text/css,a{}")
    ensures IsRemote("http://localhost")
    ensures IsRemote("http://localhost.example.com/")
    ensures IsRemote("https://localhost/")
    ensures IsRemote("FILE:///a")
    ensures IsRemote("https://example.com/a.css")
    ensures !IsRemote("")
  {
    assert "http://localhost:8080/a.css"[..17] == "http://localhost:";
    assert "http://localhost/"[..17] == "http://localhost/";
    assert "file:///home/a.css"[..5] == "file:";
    assert "data:text/css,a{}"[..5] == "data:";
    assert "http://localhost.example.com/"[..17] != "http://localhost:" by {
      assert "http://localhost.example.com/"[16] == '.';
    }
    assert "http://localhost.example.com/"[..17] != "http://localhost/" by {
      assert "http://localhost.example.com/"[16] == '.';
    }
    assert "http://localhost.example.com/"[..5] != "file:" by { assert "http://localhost.example.com/"[0] == 'h'; }
    assert "http://localhost.example.com/"[..5] != "data:" by { assert "http://localhost.example.com/"[0] == 'h'; }
    assert "https://localhost/"[..17] != "http://localhost:" by { assert "https://localhost/"[4] == 's'; }
    assert "https://localhost/"[..17] != "http://localhost/" by { assert "https://localhost/"[4] == 's'; }
    assert "https://localhost/"[..5] != "file:" by { assert "https://localhost/"[0] == 'h'; }
    assert "https://localhost/"[..5] != "data:" by { assert "https://localhost/"[0] == 'h'; }
    assert "FILE:///a"[..5] != "file:" by { assert "FILE:///a"[0] == 'F'; }
    assert "FILE:///a"[..5] != "data:" by { assert "FILE:///a"[0] == 'F'; }
    assert "https://example.com/a.css"[..17] != "http://localhost:" by { assert "https://example.com/a.css"[4] == 's'; }
    assert "https://example.com/a.css"[..17] != "http://localhost/" by { assert "https://example.com/a.css"[4] == 's'; }
    assert "https://example.com/a.css"[..5] != "file:" by { assert "https://example.com/a.css"[0] == 'h'; }
    assert "https://example.com/a.css"[..5] != "data:" by { assert "https://example.com/a.css"[0] == 'h'; }
    assert "http://localhost"[..5] != "file:" by { assert "http://localhost"[0] == 'h'; }
    assert "http://localhost"[..5] != "data:" by { assert "http://localhost"[0] == 'h'; }
  }
}
