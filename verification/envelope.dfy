/** `parseRawResponse` of dist/stock.js: the search for the first match of
    the regular expression v_(sh|sz|r_hk|s_us)([a-zA-Z0-9._]+)="([^"]+)"
    in a response body.

    The four prefix alternatives differ in their first two characters, so at
    most one of them applies at a position; the code run is followed by `=`,
    which is not a code character, and the payload run by `"`, so shortening
    either run never produces a match. The match at a position is therefore
    unique, and the regular expression's search is: try each position from
    the left, and at each one read the prefix, the longest code run and the
    longest payload run. */
module Envelope {
  import opened Wrappers
  import opened Types

  /** The alternatives of the prefix group. */
  const Prefixes: seq<string> := ["sh", "sz", "r_hk", "s_us"]

  /** The character class `[a-zA-Z0-9._]`. */
  predicate IsCodeChar(ch: char) {
    ('a' <= ch <= 'z') || ('A' <= ch <= 'Z') || ('0' <= ch <= '9') || ch == '.' || ch == '_'
  }

  /** The character class `[^"]`. */
  predicate IsPayloadChar(ch: char) {
    ch != '"'
  }

  /** What `([a-zA-Z0-9._]+)` accepts. */
  predicate IsCode(code: string) {
    |code| > 0 && forall j :: 0 <= j < |code| ==> IsCodeChar(code[j])
  }

  /** What `([^"]+)` accepts. */
  predicate IsPayload(data: string) {
    |data| > 0 && forall j :: 0 <= j < |data| ==> IsPayloadChar(data[j])
  }

  /** The assignment `v_<prefix><code>="<data>"`. */
  function Envelope(prefix: string, code: string, data: string): string {
    "v_" + (prefix + (code + ("=\"" + (data + "\""))))
  }

  /** `a` occurs in `s` starting at index `k`. */
  predicate OccursAt(a: string, s: string, k: nat) {
    k + |a| <= |s| && forall j :: 0 <= j < |a| ==> s[k + j] == a[j]
  }

  /** A well-formed envelope for key `prefix + code` and payload `data`
      starts at index `i` of `text`. */
  ghost predicate EnvelopeAt(text: string, i: nat, prefix: string, code: string, data: string) {
    prefix in Prefixes && IsCode(code) && IsPayload(data) && OccursAt(Envelope(prefix, code, data), text, i)
  }

  /** Some well-formed envelope starts at index `i` of `text`. */
  ghost predicate HasEnvelopeAt(text: string, i: nat) {
    exists prefix, code, data :: EnvelopeAt(text, i, prefix, code, data)
  }

  /** The end of the longest run of characters in the class `inRun` that
      starts at `i`. */
  function RunEnd(s: string, i: nat, inRun: char -> bool): (j: nat)
    requires i <= |s|
    ensures i <= j <= |s|
    decreases |s| - i
  {
    if i < |s| && inRun(s[i]) then RunEnd(s, i + 1, inRun) else i
  }

  /** The prefix alternative that starts at `k`, if any. */
  function PrefixAt(s: string, k: nat): Option<string> {
    if OccursAt("sh", s, k) then Some("sh")
    else if OccursAt("sz", s, k) then Some("sz")
    else if OccursAt("r_hk", s, k) then Some("r_hk")
    else if OccursAt("s_us", s, k) then Some("s_us")
    else None
  }

  /** The match of the regular expression that starts exactly at `i`. */
  function MatchAt(s: string, i: nat): Option<RawResponse>
    requires i <= |s|
  {
    if i + 2 > |s| || s[i] != 'v' || s[i + 1] != '_' then None
    else
      match PrefixAt(s, i + 2)
      case None => None
      case Some(p) =>
        var cs := i + 2 + |p|;
        var ce := RunEnd(s, cs, IsCodeChar);
        if ce == cs || ce + 2 > |s| || s[ce] != '=' || s[ce + 1] != '"' then None
        else
          var de := RunEnd(s, ce + 2, IsPayloadChar);
          if de == ce + 2 || de == |s| then None
          else Some(RawResponse(p + s[cs..ce], s[ce + 2..de]))
  }

  /** The leftmost match at or after `i`. */
  function Search(text: string, i: nat): Option<RawResponse>
    requires i <= |text|
    decreases |text| - i
  {
    match MatchAt(text, i)
    case Some(r) => Some(r)
    case None => if i == |text| then None else Search(text, i + 1)
  }

  /** `parseRawResponse(text)`: `None` is its `null`. */
  function ParseRawResponse(text: string): Option<RawResponse> {
    Search(text, 0)
  }

  // ---------------------------------------------------------------------------
  // The pieces of an envelope

  /** Where the pieces of `Envelope(p, c, d)` sit when it starts at `i`. */
  predicate EnvelopePieces(s: string, i: nat, p: string, c: string, d: string) {
    var cs := i + 2 + |p|;
    var ce := cs + |c|;
    var de := ce + 2 + |d|;
    de < |s| && s[i] == 'v' && s[i + 1] == '_' && OccursAt(p, s, i + 2) && OccursAt(c, s, cs) &&
    s[ce] == '=' && s[ce + 1] == '"' && OccursAt(d, s, ce + 2) && s[de] == '"'
  }

  lemma EnvelopeLayout(p: string, c: string, d: string)
    ensures var e := Envelope(p, c, d);
      var ce := 2 + |p| + |c|;
      var de := ce + 2 + |d|;
      |e| == de + 1 && e[0] == 'v' && e[1] == '_' && e[ce] == '=' && e[ce + 1] == '"' && e[de] == '"' &&
      (forall j :: 0 <= j < |p| ==> e[2 + j] == p[j]) &&
      (forall j :: 0 <= j < |c| ==> e[2 + |p| + j] == c[j]) &&
      (forall j :: 0 <= j < |d| ==> e[ce + 2 + j] == d[j])
  {
  }

  lemma EnvelopeToPieces(s: string, i: nat, p: string, c: string, d: string)
    requires OccursAt(Envelope(p, c, d), s, i)
    ensures EnvelopePieces(s, i, p, c, d)
  {
    var e := Envelope(p, c, d);
    var cs := 2 + |p|;
    var ce := cs + |c|;
    var de := ce + 2 + |d|;
    EnvelopeLayout(p, c, d);
    assert s[i + 0] == e[0] && s[i + 1] == e[1];
    assert s[i + ce] == e[ce] && s[i + ce + 1] == e[ce + 1] && s[i + de] == e[de];
    forall j | 0 <= j < |p| ensures s[i + 2 + j] == p[j] { assert s[i + (2 + j)] == e[2 + j]; }
    forall j | 0 <= j < |c| ensures s[i + cs + j] == c[j] { assert s[i + (cs + j)] == e[cs + j]; }
    forall j | 0 <= j < |d| ensures s[i + ce + 2 + j] == d[j] { assert s[i + (ce + 2 + j)] == e[ce + 2 + j]; }
  }

  lemma PiecesToEnvelope(s: string, i: nat, p: string, c: string, d: string)
    requires EnvelopePieces(s, i, p, c, d)
    ensures OccursAt(Envelope(p, c, d), s, i)
  {
    var e := Envelope(p, c, d);
    var cs := 2 + |p|;
    var ce := cs + |c|;
    var de := ce + 2 + |d|;
    EnvelopeLayout(p, c, d);
    forall j | 0 <= j < |e| ensures s[i + j] == e[j] {
      if 2 <= j < cs {
        assert s[i + 2 + (j - 2)] == p[j - 2];
      } else if cs <= j < ce {
        assert s[i + cs + (j - cs)] == c[j - cs];
      } else if ce + 2 <= j < de {
        assert s[i + ce + 2 + (j - ce - 2)] == d[j - ce - 2];
      }
    }
  }

  lemma OccursEnvelope(s: string, i: nat, p: string, c: string, d: string)
    ensures OccursAt(Envelope(p, c, d), s, i) <==> EnvelopePieces(s, i, p, c, d)
  {
    if OccursAt(Envelope(p, c, d), s, i) {
      EnvelopeToPieces(s, i, p, c, d);
    }
    if EnvelopePieces(s, i, p, c, d) {
      PiecesToEnvelope(s, i, p, c, d);
    }
  }

  lemma PrefixUnique(p: string, q: string, s: string, k: nat)
    requires p in Prefixes && q in Prefixes
    requires OccursAt(p, s, k) && OccursAt(q, s, k)
    ensures p == q
  {
    assert s[k + 0] == p[0] && s[k + 0] == q[0];
    assert s[k + 1] == p[1] && s[k + 1] == q[1];
  }

  lemma {:induction false} RunEndSpec(s: string, i: nat, inRun: char -> bool)
    requires i <= |s|
    ensures forall k :: i <= k < RunEnd(s, i, inRun) ==> inRun(s[k])
    ensures RunEnd(s, i, inRun) < |s| ==> !inRun(s[RunEnd(s, i, inRun)])
    decreases |s| - i
  {
    if i < |s| && inRun(s[i]) {
      RunEndSpec(s, i + 1, inRun);
    }
  }

  /** The run that starts at `i` occurs there and consists of characters of
      its class; the character after it, if any, is outside the class. */
  lemma RunSlice(s: string, i: nat, inRun: char -> bool)
    requires i <= |s|
    ensures var run := s[i..RunEnd(s, i, inRun)];
      OccursAt(run, s, i) && (forall j :: 0 <= j < |run| ==> inRun(run[j])) &&
      (RunEnd(s, i, inRun) < |s| ==> !inRun(s[RunEnd(s, i, inRun)]))
  {
    RunEndSpec(s, i, inRun);
    var run := s[i..RunEnd(s, i, inRun)];
    forall j | 0 <= j < |run| ensures inRun(run[j]) && s[i + j] == run[j] {
      assert run[j] == s[i + j];
    }
  }

  lemma PrefixAtSpec(s: string, k: nat)
    ensures PrefixAt(s, k).Some? ==> PrefixAt(s, k).value in Prefixes && OccursAt(PrefixAt(s, k).value, s, k)
  {
  }

  lemma RunEndExact(s: string, i: nat, j: nat, inRun: char -> bool)
    requires i <= j <= |s|
    requires forall k :: i <= k < j ==> inRun(s[k])
    requires j < |s| ==> !inRun(s[j])
    ensures RunEnd(s, i, inRun) == j
  {
    RunEndSpec(s, i, inRun);
  }

  // ---------------------------------------------------------------------------
  // The match at one position is exactly the envelope that starts there

  /** What the matcher checked when it returns a match at `i`: the prefix
      `p`, the code run from `cs` to `ce` and the payload run from `ce + 2` to
      `de`. */
  lemma MatchAtParts(s: string, i: nat) returns (p: string, cs: nat, ce: nat, de: nat)
    requires i <= |s| && MatchAt(s, i).Some?
    ensures i + 2 <= |s| && s[i] == 'v' && s[i + 1] == '_'
    ensures p in Prefixes && OccursAt(p, s, i + 2) && cs == i + 2 + |p|
    ensures cs <= |s| && ce == RunEnd(s, cs, IsCodeChar)
    ensures cs < ce && ce + 2 <= |s| && s[ce] == '=' && s[ce + 1] == '"'
    ensures de == RunEnd(s, ce + 2, IsPayloadChar) && ce + 2 < de < |s|
    ensures MatchAt(s, i).value == RawResponse(p + s[cs..ce], s[ce + 2..de])
  {
    PrefixAtSpec(s, i + 2);
    p := PrefixAt(s, i + 2).value;
    cs := i + 2 + |p|;
    ce := RunEnd(s, cs, IsCodeChar);
    de := RunEnd(s, ce + 2, IsPayloadChar);
  }

  /** Runs of the right classes between the right delimiters are the pieces
      of an envelope. */
  lemma PiecesOfRuns(s: string, i: nat, p: string, cs: nat, ce: nat, de: nat)
    requires i + 2 <= |s| && s[i] == 'v' && s[i + 1] == '_'
    requires p in Prefixes && OccursAt(p, s, i + 2) && cs == i + 2 + |p|
    requires cs < ce && ce + 2 < de < |s| && s[ce] == '=' && s[ce + 1] == '"'
    requires forall k :: cs <= k < ce ==> IsCodeChar(s[k])
    requires forall k :: ce + 2 <= k < de ==> IsPayloadChar(s[k])
    requires !IsPayloadChar(s[de])
    ensures IsCode(s[cs..ce]) && IsPayload(s[ce + 2..de])
    ensures EnvelopePieces(s, i, p, s[cs..ce], s[ce + 2..de])
  {
    var c, d := s[cs..ce], s[ce + 2..de];
    forall j | 0 <= j < |c| ensures IsCodeChar(c[j]) && s[cs + j] == c[j] {
      assert c[j] == s[cs + j];
    }
    forall j | 0 <= j < |d| ensures IsPayloadChar(d[j]) && s[ce + 2 + j] == d[j] {
      assert d[j] == s[ce + 2 + j];
    }
  }

  /** Whatever the matcher returns at `i` is a well-formed envelope that
      starts at `i`; `p` and `c` are its prefix and code. */
  lemma MatchAtSound(s: string, i: nat) returns (p: string, c: string)
    requires i <= |s| && MatchAt(s, i).Some?
    ensures EnvelopeAt(s, i, p, c, MatchAt(s, i).value.data) && MatchAt(s, i).value.key == p + c
  {
    var cs, ce, de;
    p, cs, ce, de := MatchAtParts(s, i);
    RunEndSpec(s, cs, IsCodeChar);
    RunEndSpec(s, ce + 2, IsPayloadChar);
    PiecesOfRuns(s, i, p, cs, ce, de);
    c := s[cs..ce];
    PiecesToEnvelope(s, i, p, c, s[ce + 2..de]);
  }

  /** An envelope at `i` has `=` right after its code and a character other
      than `"` two places further on. */
  lemma EnvelopeEquals(s: string, i: nat, p: string, c: string, d: string)
    requires EnvelopeAt(s, i, p, c, d)
    ensures i + 2 + |p| + |c| + 2 < |s|
    ensures s[i + 2 + |p| + |c|] == '=' && s[i + 2 + |p| + |c| + 2] != '"'
  {
    OccursEnvelope(s, i, p, c, d);
    var ce := i + 2 + |p| + |c|;
    assert s[ce + 2 + 0] == d[0];
  }

  /** A word of class characters that occurs at `i` and is followed by a
      character outside the class is exactly the run that starts at `i`. */
  lemma RunOfWord(s: string, i: nat, w: string, inRun: char -> bool)
    requires OccursAt(w, s, i) && i + |w| < |s| && !inRun(s[i + |w|])
    requires forall j :: 0 <= j < |w| ==> inRun(w[j])
    ensures RunEnd(s, i, inRun) == i + |w| && s[i..i + |w|] == w
  {
    forall k | i <= k < i + |w| ensures inRun(s[k]) {
      assert s[i + (k - i)] == w[k - i];
    }
    RunEndExact(s, i, i + |w|, inRun);
    assert s[i..i + |w|] == w;
  }

  /** The prefix alternative found at the start of an envelope is its own. */
  lemma PrefixOfEnvelope(s: string, i: nat, p: string, c: string, d: string)
    requires p in Prefixes && EnvelopePieces(s, i, p, c, d)
    ensures PrefixAt(s, i + 2) == Some(p)
  {
    PrefixAtSpec(s, i + 2);
    assert PrefixAt(s, i + 2).Some? by {
      assert s[i + 2 + 0] == p[0] && s[i + 2 + 1] == p[1];
    }
    PrefixUnique(PrefixAt(s, i + 2).value, p, s, i + 2);
  }

  /** The matcher accepts at `i` when each of its checks passes. */
  lemma MatchAtFromParts(s: string, i: nat, p: string, cs: nat, ce: nat, de: nat)
    requires i + 2 <= |s| && s[i] == 'v' && s[i + 1] == '_'
    requires PrefixAt(s, i + 2) == Some(p) && cs == i + 2 + |p| && cs <= |s|
    requires ce == RunEnd(s, cs, IsCodeChar) && cs < ce && ce + 2 <= |s| && s[ce] == '=' && s[ce + 1] == '"'
    requires de == RunEnd(s, ce + 2, IsPayloadChar) && ce + 2 < de < |s|
    ensures MatchAt(s, i) == Some(RawResponse(p + s[cs..ce], s[ce + 2..de]))
  {
  }

  /** The matcher reads the pieces of an envelope back. */
  lemma MatchPieces(s: string, i: nat, p: string, c: string, d: string)
    requires p in Prefixes && IsCode(c) && IsPayload(d) && EnvelopePieces(s, i, p, c, d)
    ensures i <= |s| && MatchAt(s, i) == Some(RawResponse(p + c, d))
  {
    var cs := i + 2 + |p|;
    var ce := cs + |c|;
    var de := ce + 2 + |d|;
    PrefixOfEnvelope(s, i, p, c, d);
    RunOfWord(s, cs, c, IsCodeChar);
    RunOfWord(s, ce + 2, d, IsPayloadChar);
    MatchAtFromParts(s, i, p, cs, ce, de);
  }

  /** A well-formed envelope that starts at `i` is what the matcher returns
      there. */
  lemma MatchAtComplete(s: string, i: nat, p: string, c: string, d: string)
    requires EnvelopeAt(s, i, p, c, d)
    ensures i <= |s| && MatchAt(s, i) == Some(RawResponse(p + c, d))
  {
    EnvelopeToPieces(s, i, p, c, d);
    MatchPieces(s, i, p, c, d);
  }

  lemma MatchAtNone(s: string, i: nat)
    requires i <= |s|
    ensures MatchAt(s, i).None? <==> !HasEnvelopeAt(s, i)
  {
    if MatchAt(s, i).Some? {
      var p, c := MatchAtSound(s, i);
    }
    if HasEnvelopeAt(s, i) {
      var p, c, d :| EnvelopeAt(s, i, p, c, d);
      MatchAtComplete(s, i, p, c, d);
    }
  }

  // ---------------------------------------------------------------------------
  // The search

  lemma {:induction false} SearchFound(text: string, i: nat) returns (k: nat)
    requires i <= |text| && Search(text, i).Some?
    ensures i <= k <= |text| && MatchAt(text, k) == Search(text, i)
    ensures forall j :: i <= j < k ==> MatchAt(text, j).None?
    decreases |text| - i
  {
    if MatchAt(text, i).Some? {
      k := i;
    } else {
      k := SearchFound(text, i + 1);
    }
  }

  lemma {:induction false} SearchMissed(text: string, i: nat)
    requires i <= |text|
    ensures Search(text, i).None? <==> forall j :: i <= j <= |text| ==> MatchAt(text, j).None?
    decreases |text| - i
  {
    if i < |text| {
      SearchMissed(text, i + 1);
    }
  }

  /** The envelope at `i` is the leftmost one in `text`, and it carries key
      `key` and payload `data`. */
  ghost predicate LeftmostEnvelope(text: string, i: nat, key: string, data: string) {
    i <= |text| &&
    (forall j :: 0 <= j < i ==> !HasEnvelopeAt(text, j)) &&
    exists p, c :: EnvelopeAt(text, i, p, c, data) && key == p + c
  }

  /** A result of `parseRawResponse` is the leftmost well-formed envelope of
      the text: its key is the prefix followed by the code, its data is the
      quoted payload. */
  lemma ParseRawResponseFound(text: string)
    requires ParseRawResponse(text).Some?
    ensures exists i :: LeftmostEnvelope(text, i, ParseRawResponse(text).value.key, ParseRawResponse(text).value.data)
  {
    var k := SearchFound(text, 0);
    forall j | 0 <= j < k ensures !HasEnvelopeAt(text, j) {
      MatchAtNone(text, j);
    }
    var p, c := MatchAtSound(text, k);
    assert LeftmostEnvelope(text, k, ParseRawResponse(text).value.key, ParseRawResponse(text).value.data);
  }

  /** `parseRawResponse` returns null exactly when no well-formed envelope
      occurs anywhere in the text. */
  lemma ParseRawResponseNull(text: string)
    ensures ParseRawResponse(text).None? <==> forall i :: 0 <= i <= |text| ==> !HasEnvelopeAt(text, i)
  {
    SearchMissed(text, 0);
    forall i | 0 <= i <= |text| ensures MatchAt(text, i).None? <==> !HasEnvelopeAt(text, i) {
      MatchAtNone(text, i);
    }
  }

  /** Envelope round trip: a body that starts with the assignment for
      `prefix + code` yields that key and exactly that payload, whatever
      follows it. */
  lemma ParseEnvelope(prefix: string, code: string, data: string, rest: string)
    requires prefix in Prefixes && IsCode(code) && IsPayload(data)
    ensures ParseRawResponse(Envelope(prefix, code, data) + rest) == Some(RawResponse(prefix + code, data))
  {
    var text := Envelope(prefix, code, data) + rest;
    var e := Envelope(prefix, code, data);
    assert OccursAt(e, text, 0) by {
      forall j | 0 <= j < |e| ensures text[0 + j] == e[j] { }
    }
    MatchAtComplete(text, 0, prefix, code, data);
  }

  /** An empty quoted payload is no match: `v_<prefix><code>=""` followed by
      text without `=` gives null. */
  lemma EmptyPayloadIsNull(prefix: string, code: string, rest: string)
    requires prefix in Prefixes && IsCode(code) && '=' !in rest
    ensures ParseRawResponse("v_" + prefix + code + "=\"\"" + rest).None?
  {
    var head := "v_" + prefix + code;
    var text := head + "=\"\"" + rest;
    assert '=' !in head by {
      forall j | 0 <= j < |head| ensures head[j] != '=' {
        if j >= 2 + |prefix| { assert head[j] == code[j - 2 - |prefix|]; }
        else if j >= 2 { assert head[j] == prefix[j - 2]; }
      }
    }
    assert OnlyEquals: forall k :: 0 <= k < |text| && text[k] == '=' ==> k == |head| by {
      forall k | 0 <= k < |text| && text[k] == '=' ensures k == |head| {
      }
    }
    assert text[|head| + 2] == '"';
    forall i | 0 <= i <= |text| ensures !HasEnvelopeAt(text, i) {
      if HasEnvelopeAt(text, i) {
        var p, c, d :| EnvelopeAt(text, i, p, c, d);
        EnvelopeEquals(text, i, p, c, d);
        assert false;
      }
    }
    ParseRawResponseNull(text);
  }
}
