/** Rendering and signing of SOAP requests (`templateReplace`, `CreateCommonEnvelope`) on the
    text itself. Hashing and signing are functions of the text they are given. */
module Envelope {
  import opened Options

  /** `strings.ReplaceAll` for a non-empty pattern: leftmost matches first, none inside a replacement. */
  function ReplaceAll(s: string, pattern: string, v: string): string
    requires pattern != ""
  {
    if |s| < |pattern| then s
    else if s[..|pattern|] == pattern then v + ReplaceAll(s[|pattern|..], pattern, v)
    else [s[0]] + ReplaceAll(s[1..], pattern, v)
  }

  /** Unicode's white space. */
  predicate IsSpace(c: char) {
    || c == ' ' || '\t' <= c <= '\r' || c == '\U{85}' || c == '\U{A0}' || c == '\U{1680}'
    || '\U{2000}' <= c <= '\U{200A}' || c == '\U{2028}' || c == '\U{2029}' || c == '\U{202F}'
    || c == '\U{205F}' || c == '\U{3000}'
  }

  function TrimLeft(s: string): string {
    if s != "" && IsSpace(s[0]) then TrimLeft(s[1..]) else s
  }

  function TrimRight(s: string): string {
    if s != "" && IsSpace(s[|s| - 1]) then TrimRight(s[..|s| - 1]) else s
  }

  function TrimSpace(s: string): string {
    TrimRight(TrimLeft(s))
  }

  /** Blanks and line breaks around a text that begins and ends with printable characters
      are cut off, and nothing else. */
  lemma {:induction false} TrimExact(a: string, s: string, b: string)
    requires forall c :: c in a || c in b ==> c in " \t\n\r"
    requires s != "" && '!' <= s[0] <= '~' && '!' <= s[|s| - 1] <= '~'
    ensures TrimSpace(a + s + b) == s
    decreases |a| + |b|
  {
    if a != "" {
      TrimExact(a[1..], s, b);
      assert a[0] in a && IsSpace(a[0]) && (a + s + b)[0] == a[0];
      assert (a + s + b)[1..] == a[1..] + s + b;
    } else if b != "" {
      var (init, last) := (b[..|b| - 1], b[|b| - 1]);
      TrimExact(a, s, init);
      assert last in b && IsSpace(last);
      assert (a + s + b)[..|a + s + b| - 1] == a + s + init && (a + s + b)[|a + s + b| - 1] == last;
      assert TrimLeft(a + s + b) == a + s + b && TrimLeft(a + s + init) == a + s + init;
    } else {
      assert a + s + b == s;
    }
  }

  function Placeholder(key: string): (p: string)
    ensures p != ""
  {
    "{" + key + "}"
  }

  // ------------------------------------------------------------ templates

  /** A template taken apart: plain text and placeholders. */
  datatype Seg = Text(s: string) | Hole(key: string)

  predicate Plain(s: string) {
    '{' !in s && '}' !in s
  }

  /** Placeholders are not nested: text and keys hold no braces. */
  ghost predicate WellFormed(segs: seq<Seg>) {
    forall i :: 0 <= i < |segs| ==> Plain(if segs[i].Text? then segs[i].s else segs[i].key)
  }

  /** The template begins and ends with text that trimming leaves alone. */
  predicate Solid(segs: seq<Seg>) {
    && |segs| > 0 && segs[0].Text? && segs[|segs| - 1].Text?
    && segs[0].s != "" && !IsSpace(segs[0].s[0])
    && segs[|segs| - 1].s != "" && !IsSpace(segs[|segs| - 1].s[|segs[|segs| - 1].s| - 1])
  }

  function Flat(segs: seq<Seg>): string {
    if segs == [] then ""
    else (if segs[0].Text? then segs[0].s else Placeholder(segs[0].key)) + Flat(segs[1..])
  }

  /** The text with `v` in place of every placeholder of one key. */
  function FlatWith(segs: seq<Seg>, key: string, v: string): string {
    if segs == [] then ""
    else (if segs[0].Text? then segs[0].s else if segs[0].key == key then v else Placeholder(segs[0].key))
         + FlatWith(segs[1..], key, v)
  }

  /** The template with the placeholders of `keys` filled from `data`; a value that is its own
      placeholder leaves it in place. */
  function Filled(segs: seq<Seg>, data: map<string, string>, keys: set<string>): seq<Seg>
    requires keys <= data.Keys
  {
    if segs == [] then []
    else
      var seg := segs[0];
      [if seg.Hole? && seg.key in keys && data[seg.key] != Placeholder(seg.key) then Text(data[seg.key]) else seg]
      + Filled(segs[1..], data, keys)
  }

  function Rendered(segs: seq<Seg>, data: map<string, string>): string {
    Flat(Filled(segs, data, data.Keys))
  }

  /** The template read out: its text, with each placeholder's value, or the placeholder itself if it
      has none. */
  function Said(segs: seq<Seg>, values: map<string, string>): string {
    if segs == [] then ""
    else
      (match segs[0]
       case Text(s) => s
       case Hole(key) => if key in values then values[key] else "{" + key + "}") + Said(segs[1..], values)
  }

  lemma {:induction false} RenderedIsSaid(segs: seq<Seg>, values: map<string, string>)
    ensures Rendered(segs, values) == Said(segs, values)
    decreases |segs|
  {
    if segs != [] {
      RenderedIsSaid(segs[1..], values);
      var f := Filled(segs, values, values.Keys);
      assert f[1..] == Filled(segs[1..], values, values.Keys);
    }
  }

  lemma {:induction false} SaidConcat(a: seq<Seg>, b: seq<Seg>, values: map<string, string>)
    ensures Said(a + b, values) == Said(a, values) + Said(b, values)
    decreases |a|
  {
    if a == [] {
      assert a + b == b;
    } else {
      assert (a + b)[1..] == a[1..] + b;
      SaidConcat(a[1..], b, values);
    }
  }

  /** Around one placeholder. */
  lemma SaidAround(a: seq<Seg>, key: string, b: seq<Seg>, values: map<string, string>)
    requires key in values
    ensures Said(a + ([Hole(key)] + b), values) == Said(a, values) + values[key] + Said(b, values)
  {
    SaidConcat(a, [Hole(key)] + b, values);
    assert ([Hole(key)] + b)[1..] == b;
  }

  /** Values hold no braces, unless they are the placeholder they replace. */
  predicate Fillers(data: map<string, string>) {
    forall k :: k in data ==> Plain(k) && (Plain(data[k]) || data[k] == Placeholder(k))
  }

  // ------------------------------------------------------------ replacing in templates

  /** Where the pattern does not stand, one character is passed over. */
  lemma StepOver(s: string, p: string, v: string)
    requires s != "" && p != "" && (|s| < |p| || s[..|p|] != p)
    ensures ReplaceAll(s, p, v) == [s[0]] + ReplaceAll(s[1..], p, v)
  {
  }

  lemma NoBraceNoMatch(s: string, key: string)
    requires s != "" && s[0] != '{'
    ensures var p := Placeholder(key); |s| < |p| || s[..|p|] != p
  {
    var p := Placeholder(key);
    if |s| >= |p| {
      assert s[..|p|][0] == s[0] && p[0] == '{';
    }
  }

  /** Text without an opening brace is passed over. */
  lemma {:induction false} PassOver(t: string, rest: string, key: string, v: string)
    requires '{' !in t
    ensures ReplaceAll(t + rest, Placeholder(key), v) == t + ReplaceAll(rest, Placeholder(key), v)
    decreases |t|
  {
    var p := Placeholder(key);
    if t == "" {
      assert t + rest == rest;
    } else {
      var s := t + rest;
      assert s[1..] == t[1..] + rest && s[0] == t[0] && t[0] in t;
      PassOver(t[1..], rest, key, v);
      NoBraceNoMatch(s, key);
      StepOver(s, p, v);
      assert [t[0]] + (t[1..] + ReplaceAll(rest, p, v)) == t + ReplaceAll(rest, p, v);
    }
  }

  /** One placeholder does not begin with another. */
  lemma OtherPlaceholder(key: string, other: string, rest: string)
    requires Plain(key) && Plain(other) && key != other
    ensures var (s, p) := (Placeholder(other) + rest, Placeholder(key));
            |s| < |p| || s[..|p|] != p
  {
    var s, p := Placeholder(other) + rest, Placeholder(key);
    if |s| >= |p| {
      if |key| == |other| {
        assert s[1..|key| + 1] == other && p[1..|key| + 1] == key;
        assert s[..|p|][1..|key| + 1] == s[1..|key| + 1];
      } else if |key| < |other| {
        assert s[|key| + 1] == other[|key|] && other[|key|] in other && p[|key| + 1] == '}';
        assert s[..|p|][|key| + 1] == s[|key| + 1];
      } else {
        assert s[|other| + 1] == '}' && p[|other| + 1] == key[|other|] && key[|other|] in key;
        assert s[..|p|][|other| + 1] == s[|other| + 1];
      }
    }
  }

  lemma ReplaceHole(key: string, other: string, rest: string, v: string)
    requires Plain(key) && Plain(other)
    ensures ReplaceAll(Placeholder(other) + rest, Placeholder(key), v)
              == (if other == key then v else Placeholder(other)) + ReplaceAll(rest, Placeholder(key), v)
  {
    var s, p := Placeholder(other) + rest, Placeholder(key);
    if other == key {
      assert s[..|p|] == p && s[|p|..] == rest;
    } else {
      OtherPlaceholder(key, other, rest);
      var tail := other + "}";
      assert s[0] == '{' && s[1..] == tail + rest;
      PassOver(tail, rest, key, v);
      StepOver(s, p, v);
      assert ['{'] + (tail + ReplaceAll(rest, p, v)) == Placeholder(other) + ReplaceAll(rest, p, v);
    }
  }

  /** Replacing in a template replaces exactly the placeholders of the key. */
  lemma {:induction false} ReplaceInTemplate(segs: seq<Seg>, key: string, v: string)
    requires WellFormed(segs) && Plain(key)
    ensures ReplaceAll(Flat(segs), Placeholder(key), v) == FlatWith(segs, key, v)
    decreases |segs|
  {
    if segs != [] {
      assert Plain(if segs[0].Text? then segs[0].s else segs[0].key);
      WellFormedTail(segs);
      ReplaceInTemplate(segs[1..], key, v);
      if segs[0].Text? {
        PassOver(segs[0].s, Flat(segs[1..]), key, v);
      } else {
        ReplaceHole(key, segs[0].key, Flat(segs[1..]), v);
      }
    }
  }

  lemma WellFormedTail(segs: seq<Seg>)
    requires WellFormed(segs) && segs != []
    ensures WellFormed(segs[1..])
  {
    forall i | 0 <= i < |segs[1..]| ensures Plain(if segs[1..][i].Text? then segs[1..][i].s else segs[1..][i].key) {
      assert segs[1..][i] == segs[i + 1];
    }
  }

  lemma {:induction false} FilledWellFormed(segs: seq<Seg>, data: map<string, string>, keys: set<string>)
    requires WellFormed(segs) && Fillers(data) && keys <= data.Keys
    ensures WellFormed(Filled(segs, data, keys)) && |Filled(segs, data, keys)| == |segs|
    decreases |segs|
  {
    if segs != [] {
      assert Plain(if segs[0].Text? then segs[0].s else segs[0].key);
      WellFormedTail(segs);
      FilledWellFormed(segs[1..], data, keys);
    }
  }

  /** One more key, whichever it is. */
  lemma {:induction false} FillOneMore(segs: seq<Seg>, data: map<string, string>, keys: set<string>, k: string)
    requires keys <= data.Keys && k in data && k !in keys
    requires Fillers(data)
    ensures FlatWith(Filled(segs, data, keys), k, data[k]) == Flat(Filled(segs, data, keys + {k}))
    decreases |segs|
  {
    if segs != [] {
      FillOneMore(segs[1..], data, keys, k);
      var f := Filled(segs, data, keys);
      assert f[1..] == Filled(segs[1..], data, keys);
      assert Filled(segs, data, keys + {k})[1..] == Filled(segs[1..], data, keys + {k});
    }
  }

  /** `templateReplace`: the keys of a Go map come in any order; the result does not depend on it. */
  method TemplateReplace(template: string, data: map<string, string>, ghost segs: seq<Seg>) returns (result: string)
    requires WellFormed(segs) && Fillers(data) && TrimSpace(template) == Flat(segs)
    ensures result == Rendered(segs, data) == Said(segs, data)
  {
    RenderedIsSaid(segs, data);
    result := TrimSpace(template);
    FilledNone(segs, data);
    var keys := data.Keys;
    ghost var done: set<string> := {};
    while keys != {}
      invariant done + keys == data.Keys && done !! keys
      invariant result == Flat(Filled(segs, data, done))
      decreases |keys|
    {
      var k :| k in keys;
      FilledWellFormed(segs, data, done);
      ReplaceInTemplate(Filled(segs, data, done), k, data[k]);
      FillOneMore(segs, data, done, k);
      result := ReplaceAll(result, Placeholder(k), data[k]);
      keys := keys - {k};
      done := done + {k};
    }
    assert done == data.Keys;
  }

  lemma {:induction false} FilledNone(segs: seq<Seg>, data: map<string, string>)
    ensures Filled(segs, data, {}) == segs
    decreases |segs|
  {
    if segs != [] {
      FilledNone(segs[1..], data);
    }
  }

  // ------------------------------------------------------------ trimming rendered text

  lemma TrimSolid(s: string)
    requires s != "" && !IsSpace(s[0]) && !IsSpace(s[|s| - 1])
    ensures TrimSpace(s) == s
  {
  }

  lemma FlatLast(segs: seq<Seg>, last: string)
    requires segs != [] && segs[|segs| - 1] == Text(last) && last != ""
    ensures Flat(segs) != "" && Flat(segs)[|Flat(segs)| - 1] == last[|last| - 1]
  {
    var init := segs[..|segs| - 1];
    assert segs == init + [Text(last)];
    FlatConcat(init, [Text(last)]);
    assert Flat([Text(last)]) == last + "";
    LastOfConcat(Flat(init), last);
  }

  lemma LastOfConcat(a: string, b: string)
    requires b != ""
    ensures a + b != "" && (a + b)[|a + b| - 1] == b[|b| - 1]
  {
  }

  lemma SolidText(segs: seq<Seg>)
    requires Solid(segs)
    ensures TrimSpace(Flat(segs)) == Flat(segs)
  {
    FlatLast(segs, segs[|segs| - 1].s);
    assert Flat(segs)[0] == segs[0].s[0];
    TrimSolid(Flat(segs));
  }

  lemma {:induction false} FilledAt(segs: seq<Seg>, data: map<string, string>, keys: set<string>, i: nat)
    requires keys <= data.Keys && i < |segs|
    ensures |Filled(segs, data, keys)| == |segs|
    ensures segs[i].Text? ==> Filled(segs, data, keys)[i] == segs[i]
    decreases |segs|
  {
    if i > 0 {
      FilledAt(segs[1..], data, keys, i - 1);
    } else if |segs| > 1 {
      FilledAt(segs[1..], data, keys, 0);
    }
  }

  lemma SolidFilled(segs: seq<Seg>, data: map<string, string>)
    requires Solid(segs)
    ensures Solid(Filled(segs, data, data.Keys))
  {
    FilledAt(segs, data, data.Keys, 0);
    FilledAt(segs, data, data.Keys, |segs| - 1);
  }

  // ------------------------------------------------------------ signing

  const SIGNATURE := "signature"

  lemma SignatureIsPlain()
    ensures Plain(SIGNATURE)
  {
  }

  lemma {:induction false} FlatConcat(a: seq<Seg>, b: seq<Seg>)
    ensures Flat(a + b) == Flat(a) + Flat(b)
    decreases |a|
  {
    if a == [] {
      assert a + b == b;
    } else {
      assert (a + b)[1..] == a[1..] + b;
      FlatConcat(a[1..], b);
    }
  }

  lemma {:induction false} FlatWithConcat(a: seq<Seg>, b: seq<Seg>, key: string, v: string)
    ensures FlatWith(a + b, key, v) == FlatWith(a, key, v) + FlatWith(b, key, v)
    decreases |a|
  {
    if a == [] {
      assert a + b == b;
    } else {
      assert (a + b)[1..] == a[1..] + b;
      FlatWithConcat(a[1..], b, key, v);
    }
  }

  lemma {:induction false} FilledConcat(a: seq<Seg>, b: seq<Seg>, data: map<string, string>, keys: set<string>)
    requires keys <= data.Keys
    ensures Filled(a + b, data, keys) == Filled(a, data, keys) + Filled(b, data, keys)
    decreases |a|
  {
    if a == [] {
      assert a + b == b;
    } else {
      assert (a + b)[1..] == a[1..] + b;
      FilledConcat(a[1..], b, data, keys);
    }
  }

  ghost predicate Unsigned(segs: seq<Seg>) {
    forall i :: 0 <= i < |segs| && segs[i].Hole? ==> segs[i].key != SIGNATURE
  }

  /** Parts without the signature's placeholder come out the same whatever the signature. */
  lemma {:induction false} UnsignedParts(segs: seq<Seg>, data: map<string, string>, v: string, sig: string)
    requires Unsigned(segs) && SIGNATURE in data
    ensures Rendered(segs, data[SIGNATURE := v]) == Rendered(segs, data)
    ensures FlatWith(Filled(segs, data, data.Keys), SIGNATURE, sig) == Rendered(segs, data)
    decreases |segs|
  {
    assert data[SIGNATURE := v].Keys == data.Keys;
    if segs != [] {
      assert Unsigned(segs[1..]) by {
        assert forall i :: 0 <= i < |segs[1..]| ==> segs[1..][i] == segs[i + 1];
      }
      UnsignedParts(segs[1..], data, v, sig);
      var f, f' := Filled(segs, data, data.Keys), Filled(segs, data[SIGNATURE := v], data.Keys);
      assert f[1..] == Filled(segs[1..], data, data.Keys) && f'[1..] == Filled(segs[1..], data[SIGNATURE := v], data.Keys);
      assert f[0] == f'[0];
    }
  }

  /** With nothing in place of the signature, what is around it is all there is. */
  lemma RenderedWithout(pre: seq<Seg>, post: seq<Seg>, data: map<string, string>)
    requires Unsigned(pre) && Unsigned(post) && SIGNATURE in data && data[SIGNATURE] == Placeholder(SIGNATURE)
    ensures Rendered(pre + ([Hole(SIGNATURE)] + post), data[SIGNATURE := ""]) == Rendered(pre, data) + Rendered(post, data)
  {
    var hole, d := [Hole(SIGNATURE)], data[SIGNATURE := ""];
    FilledConcat(pre, hole + post, d, d.Keys);
    FilledConcat(hole, post, d, d.Keys);
    FlatConcat(Filled(pre, d, d.Keys), Filled(hole + post, d, d.Keys));
    FlatConcat(Filled(hole, d, d.Keys), Filled(post, d, d.Keys));
    UnsignedParts(pre, data, "", "");
    UnsignedParts(post, data, "", "");
    OneHole(d, data, "");
  }

  /** With the placeholder kept, the second pass puts the signature in its place. */
  lemma RenderedAround(pre: seq<Seg>, post: seq<Seg>, data: map<string, string>, sig: string)
    requires Unsigned(pre) && Unsigned(post) && SIGNATURE in data && data[SIGNATURE] == Placeholder(SIGNATURE)
    ensures FlatWith(Filled(pre + ([Hole(SIGNATURE)] + post), data, data.Keys), SIGNATURE, sig)
              == Rendered(pre, data) + sig + Rendered(post, data)
  {
    var hole := [Hole(SIGNATURE)];
    FilledConcat(pre, hole + post, data, data.Keys);
    FilledConcat(hole, post, data, data.Keys);
    FlatWithConcat(Filled(pre, data, data.Keys), Filled(hole + post, data, data.Keys), SIGNATURE, sig);
    FlatWithConcat(Filled(hole, data, data.Keys), Filled(post, data, data.Keys), SIGNATURE, sig);
    UnsignedParts(pre, data, "", sig);
    UnsignedParts(post, data, "", sig);
    OneHole(data[SIGNATURE := ""], data, sig);
  }

  lemma OneHole(d: map<string, string>, data: map<string, string>, sig: string)
    requires SIGNATURE in d && d[SIGNATURE] == "" && SIGNATURE in data && data[SIGNATURE] == Placeholder(SIGNATURE)
    ensures Flat(Filled([Hole(SIGNATURE)], d, d.Keys)) == ""
    ensures FlatWith(Filled([Hole(SIGNATURE)], data, data.Keys), SIGNATURE, sig) == sig
  {
    var hole := [Hole(SIGNATURE)];
    assert hole[1..] == [];
    assert Filled(hole, d, d.Keys) == [Text("")] && Filled(hole, data, data.Keys) == hole;
    assert [Text("")][1..] == [];
    assert sig + "" == sig;
  }

  /** The fixed templates, taken apart. */
  datatype Templates = Templates(signedInfo: seq<Seg>, keyInfo: seq<Seg>, signature: seq<Seg>, envelope: seq<Seg>) {
    ghost predicate Ok() {
      && WellFormed(signedInfo) && WellFormed(keyInfo) && WellFormed(signature) && WellFormed(envelope)
      && Solid(signedInfo) && Solid(keyInfo) && Solid(signature) && Solid(envelope)
    }
  }

  function SignedInfo(t: Templates, digestValue: string): string {
    Rendered(t.signedInfo, map["uri" := "", "digest_value" := digestValue])
  }

  function KeyInfo(t: Templates, issuer: string, serial: string, certificate: string): string {
    Rendered(t.keyInfo, map["issuer_name" := issuer, "serial_number" := serial, "certificate" := certificate])
  }

  function SignatureElement(t: Templates, signedInfo: string, value: string, keyInfo: string): string {
    Rendered(t.signature, map["signed_info" := signedInfo, "signature_value" := value, "key_info" := keyInfo])
  }

  /** The text that stands in the template, whatever the values. */
  function Words(segs: seq<Seg>): string {
    if segs == [] then "" else (if segs[0].Text? then segs[0].s else "") + Words(segs[1..])
  }

  lemma {:induction false} OnlyEmpty(segs: seq<Seg>, values: map<string, string>)
    requires forall i :: 0 <= i < |segs| && segs[i].Hole? ==> segs[i].key in values && values[segs[i].key] == ""
    ensures Said(segs, values) == Words(segs)
    decreases |segs|
  {
    if segs != [] {
      assert forall i :: 0 <= i < |segs[1..]| ==> segs[1..][i] == segs[i + 1];
      OnlyEmpty(segs[1..], values);
    }
  }

  ghost predicate OnlyUri(segs: seq<Seg>) {
    forall i :: 0 <= i < |segs| && segs[i].Hole? ==> segs[i].key == "uri"
  }

  /** What is signed: the digest, between two texts that do not depend on it. So two contents with
      different digests never share a signed text. */
  lemma SignedTextHoldsDigest(t: Templates, a: seq<Seg>, b: seq<Seg>, digest: string, other: string)
    requires t.signedInfo == a + ([Hole("digest_value")] + b) && OnlyUri(a) && OnlyUri(b)
    ensures SignedInfo(t, digest) == Words(a) + digest + Words(b)
    ensures SignedInfo(t, digest) == SignedInfo(t, other) ==> digest == other
  {
    SignedText(t, a, b, digest);
    SignedText(t, a, b, other);
    if SignedInfo(t, digest) == SignedInfo(t, other) {
      SameMiddle(Words(a), digest, other, Words(b));
    }
  }

  lemma SignedText(t: Templates, a: seq<Seg>, b: seq<Seg>, digest: string)
    requires t.signedInfo == a + ([Hole("digest_value")] + b) && OnlyUri(a) && OnlyUri(b)
    ensures SignedInfo(t, digest) == Words(a) + digest + Words(b)
  {
    var values := map["uri" := "", "digest_value" := digest];
    RenderedIsSaid(t.signedInfo, values);
    SaidAround(a, "digest_value", b, values);
    OnlyEmpty(a, values);
    OnlyEmpty(b, values);
  }

  lemma SameMiddle(a: string, x: string, y: string, b: string)
    requires a + x + b == a + y + b
    ensures x == y
  {
    assert |x| == |y|;
    assert (a + x + b)[|a|..|a| + |x|] == x && (a + y + b)[|a|..|a| + |x|] == y;
  }

  /** No placeholders. */
  predicate Fixed(segs: seq<Seg>) {
    forall i :: 0 <= i < |segs| ==> segs[i].Text?
  }

  /** Around three placeholders in a row, none of them repeated. */
  lemma SaidThree(a: seq<Seg>, x: string, b: seq<Seg>, y: string, c: seq<Seg>, z: string, d: seq<Seg>,
                  values: map<string, string>)
    requires Fixed(a) && Fixed(b) && Fixed(c) && Fixed(d) && x in values && y in values && z in values
    ensures Rendered(a + ([Hole(x)] + (b + ([Hole(y)] + (c + ([Hole(z)] + d))))), values)
              == Words(a) + values[x] + (Words(b) + values[y] + (Words(c) + values[z] + Words(d)))
  {
    var third := c + ([Hole(z)] + d);
    var second := b + ([Hole(y)] + third);
    RenderedIsSaid(a + ([Hole(x)] + second), values);
    SaidAround(a, x, second, values);
    SaidAround(b, y, third, values);
    SaidAround(c, z, d, values);
    OnlyEmpty(a, values);
    OnlyEmpty(b, values);
    OnlyEmpty(c, values);
    OnlyEmpty(d, values);
  }

  /** The key information names the issuer, the serial number and the certificate, each in its place. */
  lemma KeyInfoHoldsCertificate(t: Templates, a: seq<Seg>, b: seq<Seg>, c: seq<Seg>, d: seq<Seg>,
                                issuer: string, serial: string, certificate: string)
    requires t.keyInfo == a + ([Hole("issuer_name")] + (b + ([Hole("serial_number")] + (c + ([Hole("certificate")] + d)))))
    requires Fixed(a) && Fixed(b) && Fixed(c) && Fixed(d)
    ensures KeyInfo(t, issuer, serial, certificate)
              == Words(a) + issuer + (Words(b) + serial + (Words(c) + certificate + Words(d)))
  {
    var values := map["issuer_name" := issuer, "serial_number" := serial, "certificate" := certificate];
    SaidThree(a, "issuer_name", b, "serial_number", c, "certificate", d, values);
  }

  /** The Signature element holds what was signed, its signature and the key information. */
  lemma SignatureHoldsParts(t: Templates, a: seq<Seg>, b: seq<Seg>, c: seq<Seg>, d: seq<Seg>,
                            signedInfo: string, value: string, keyInfo: string)
    requires t.signature == a + ([Hole("signed_info")] + (b + ([Hole("signature_value")] + (c + ([Hole("key_info")] + d)))))
    requires Fixed(a) && Fixed(b) && Fixed(c) && Fixed(d)
    ensures SignatureElement(t, signedInfo, value, keyInfo)
              == Words(a) + signedInfo + (Words(b) + value + (Words(c) + keyInfo + Words(d)))
  {
    var values := map["signed_info" := signedInfo, "signature_value" := value, "key_info" := keyInfo];
    SaidThree(a, "signed_info", b, "signature_value", c, "key_info", d, values);
  }

  lemma KeysArePlain()
    ensures Plain("uri") && Plain("digest_value") && Plain("issuer_name") && Plain("serial_number") && Plain("certificate")
    ensures Plain("signed_info") && Plain("signature_value") && Plain("key_info") && Plain("content")
  {
    InfoKeysArePlain();
    SignatureKeysArePlain();
  }

  lemma InfoKeysArePlain()
    ensures Plain("uri") && Plain("digest_value") && Plain("issuer_name") && Plain("serial_number") && Plain("certificate")
  {
  }

  lemma SignatureKeysArePlain()
    ensures Plain("signed_info") && Plain("signature_value") && Plain("key_info") && Plain("content")
  {
  }

  /** A template of plain text around plain values renders to plain text, if every placeholder has a value. */
  lemma {:induction false} PlainRendering(segs: seq<Seg>, data: map<string, string>)
    requires WellFormed(segs) && (forall k :: k in data ==> Plain(data[k]))
    requires forall i :: 0 <= i < |segs| && segs[i].Hole? ==> segs[i].key in data
    ensures Plain(Rendered(segs, data))
    decreases |segs|
  {
    if segs != [] {
      assert Plain(if segs[0].Text? then segs[0].s else segs[0].key);
      WellFormedTail(segs);
      assert forall i :: 0 <= i < |segs[1..]| ==> segs[1..][i] == segs[i + 1];
      PlainRendering(segs[1..], data);
      var f := Filled(segs, data, data.Keys);
      assert f[1..] == Filled(segs[1..], data, data.Keys);
      if segs[0].Hole? {
        assert data[segs[0].key] != Placeholder(segs[0].key) by {
          assert Placeholder(segs[0].key)[0] == '{';
        }
      }
    }
  }

  /** `CreateCommonEnvelope`. The signature covers the digest of the content rendered without it;
      the content sent is that very text with the Signature element put in at its placeholder. */
  method CreateCommonEnvelope(t: Templates, pre: seq<Seg>, post: seq<Seg>, data: map<string, string>,
                              issuer: string, serial: string, certificate: string,
                              digest: string -> string, sign: string -> Option<string>)
    returns (envelope: Option<string>)
    requires t.Ok()
    requires var segs := pre + ([Hole(SIGNATURE)] + post);
             WellFormed(segs) && Solid(segs) && Unsigned(pre) && Unsigned(post)
    requires Fillers(data) && SIGNATURE in data && data[SIGNATURE] == Placeholder(SIGNATURE)
    requires Plain(issuer) && Plain(serial) && Plain(certificate)
    requires forall s :: Plain(digest(s)) && (sign(s).Some? ==> Plain(sign(s).value))
    requires ClosedTemplates(t)
    ensures var (head, tail) := (Said(pre, data), Said(post, data));
            var info := Said(t.signedInfo, map["uri" := "", "digest_value" := digest(head + tail)]);
            var keyInfo := Said(t.keyInfo, map["issuer_name" := issuer, "serial_number" := serial, "certificate" := certificate]);
            envelope ==
              if sign(info).None? then None
              else
                var values := map["signed_info" := info, "signature_value" := sign(info).value, "key_info" := keyInfo];
                Some(Said(t.envelope, map["content" := head + Said(t.signature, values) + tail]))
  {
    RenderedIsSaid(pre, data);
    RenderedIsSaid(post, data);
    ghost var segs := pre + ([Hole(SIGNATURE)] + post);
    var template := Flat(pre + ([Hole(SIGNATURE)] + post));
    KeysArePlain();
    SignatureIsPlain();
    SolidText(segs);
    var queryDataSignature := TemplateReplace(template, data, segs);
    var dataForDigest := data[SIGNATURE := ""];
    var queryData := TemplateReplace(template, dataForDigest, segs);
    RenderedWithout(pre, post, data);
    var digestValue := digest(queryData);
    var signedInfo := RenderSignedInfo(t, digestValue);
    var keyInfo := RenderKeyInfo(t, issuer, serial, certificate);
    var value := sign(signedInfo);
    if value.None? {
      return None;
    }
    var signature := RenderSignature(t, signedInfo, value.value, keyInfo);
    RenderedAround(pre, post, data, signature);
    SolidFilled(segs, data);
    var content := ReplaceOne(queryDataSignature, SIGNATURE, signature, Filled(segs, data, data.Keys), segs, data);
    SolidText(t.envelope);
    ReplaceInTemplate(t.envelope, "content", content);
    FlatWithIsSaid(t.envelope, "content", content);
    envelope := Some(ReplaceAll(TrimSpace(Flat(t.envelope)), Placeholder("content"), content));
  }

  lemma {:induction false} FlatWithIsSaid(segs: seq<Seg>, key: string, v: string)
    ensures FlatWith(segs, key, v) == Said(segs, map[key := v])
    decreases |segs|
  {
    if segs != [] {
      FlatWithIsSaid(segs[1..], key, v);
    }
  }

  /** The placeholders of the fixed templates are the ones that get values. */
  ghost predicate ClosedTemplates(t: Templates) {
    && (forall i :: 0 <= i < |t.signedInfo| && t.signedInfo[i].Hole? ==> t.signedInfo[i].key in {"uri", "digest_value"})
    && (forall i :: 0 <= i < |t.keyInfo| && t.keyInfo[i].Hole? ==>
          t.keyInfo[i].key in {"issuer_name", "serial_number", "certificate"})
  }

  method RenderSignedInfo(t: Templates, digestValue: string) returns (s: string)
    requires t.Ok() && ClosedTemplates(t) && Plain(digestValue)
    ensures s == SignedInfo(t, digestValue) && Plain(s)
    ensures s == Said(t.signedInfo, map["uri" := "", "digest_value" := digestValue])
  {
    KeysArePlain();
    SolidText(t.signedInfo);
    var data := map["uri" := "", "digest_value" := digestValue];
    PlainRendering(t.signedInfo, data);
    s := TemplateReplace(Flat(t.signedInfo), data, t.signedInfo);
  }

  method RenderKeyInfo(t: Templates, issuer: string, serial: string, certificate: string) returns (s: string)
    requires t.Ok() && ClosedTemplates(t) && Plain(issuer) && Plain(serial) && Plain(certificate)
    ensures s == KeyInfo(t, issuer, serial, certificate) && Plain(s)
    ensures s == Said(t.keyInfo, map["issuer_name" := issuer, "serial_number" := serial, "certificate" := certificate])
  {
    KeysArePlain();
    SolidText(t.keyInfo);
    var data := map["issuer_name" := issuer, "serial_number" := serial, "certificate" := certificate];
    PlainRendering(t.keyInfo, data);
    s := TemplateReplace(Flat(t.keyInfo), data, t.keyInfo);
  }

  method RenderSignature(t: Templates, signedInfo: string, value: string, keyInfo: string) returns (s: string)
    requires t.Ok() && Plain(signedInfo) && Plain(value) && Plain(keyInfo)
    ensures s == SignatureElement(t, signedInfo, value, keyInfo)
    ensures s == Said(t.signature, map["signed_info" := signedInfo, "signature_value" := value, "key_info" := keyInfo])
  {
    KeysArePlain();
    SolidText(t.signature);
    s := TemplateReplace(Flat(t.signature), map["signed_info" := signedInfo, "signature_value" := value, "key_info" := keyInfo],
                         t.signature);
  }

  /** The second pass, with a single key. */
  method ReplaceOne(text: string, key: string, v: string,
                    ghost filled: seq<Seg>, ghost segs: seq<Seg>, ghost data: map<string, string>)
    returns (s: string)
    requires Plain(key) && WellFormed(segs) && Fillers(data)
    requires filled == Filled(segs, data, data.Keys) && text == Flat(filled) && Solid(filled)
    ensures s == FlatWith(filled, key, v)
  {
    SolidText(filled);
    FilledWellFormed(segs, data, data.Keys);
    ReplaceInTemplate(filled, key, v);
    s := ReplaceAll(TrimSpace(text), Placeholder(key), v);
  }
}
