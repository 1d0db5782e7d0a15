// Authorization headers that are blank or have no scheme word: what rewriting makes of them, and what the
// parser then reads.
module AuthSchemeless {
  import opened Text
  import opened AuthHeader
  import opened AuthRoundTrip

  // ---------- blank headers ----------

  lemma {:induction false} LeftGone(s: string)
    ensures TrimLeft(s) != "" ==> !IsSpace(TrimLeft(s)[0])
    ensures TrimLeft(s) == "" ==> forall c | c in s :: IsSpace(c)
  {
    if s != [] && IsSpace(s[0]) {
      LeftGone(s[1..]);
    }
  }

  lemma {:induction false} RightGone(s: string)
    ensures TrimRight(s) == "" ==> forall c | c in s :: IsSpace(c)
    ensures |TrimRight(s)| <= |s|
  {
    if s != [] && IsSpace(s[|s| - 1]) {
      RightGone(s[..|s| - 1]);
      assert s == s[..|s| - 1] + [s[|s| - 1]];
    }
  }

  lemma {:induction false} LeftShorter(s: string)
    ensures |TrimLeft(s)| <= |s| && forall c | c in TrimLeft(s) :: c in s
  {
    if s != [] && IsSpace(s[0]) {
      LeftShorter(s[1..]);
    }
  }

  lemma {:induction false} QuotesShorter(s: string)
    ensures |TrimQuotes(s)| <= |s|
    decreases |s|
  {
    if s != [] && s[0] == '"' {
      QuotesShorter(s[1..]);
    } else if s != [] && s[|s| - 1] == '"' {
      QuotesShorter(s[..|s| - 1]);
    }
  }

  lemma Shorter(s: string)
    ensures |TrimSpace(s)| <= |s|
  {
    LeftShorter(s);
    RightGone(TrimLeft(s));
  }

  lemma BlankIsSpaces(s: string)
    requires TrimSpace(s) == ""
    ensures forall c | c in s :: IsSpace(c)
  {
    LeftGone(s);
    RightGone(TrimLeft(s));
    var left := TrimLeft(s);
    assert forall i | 0 <= i < |left| :: left[i] in left;
  }

  lemma {:induction false} TrimLeftOf(s: string, rest: string)
    requires rest != "" && !IsSpace(rest[0])
    ensures TrimLeft(s + rest) == TrimLeft(s) + rest
  {
    if s == [] {
      assert s + rest == rest;
    } else if IsSpace(s[0]) {
      assert (s + rest)[1..] == s[1..] + rest;
      TrimLeftOf(s[1..], rest);
    }
  }

  // A blank header becomes the four fields without a scheme.
  lemma BlankIsParams(profile: Profile, given: string)
    requires ProfileOk(profile) && TrimSpace(given) == ""
    ensures Rewritten(profile, given) == RenderParams(ProfileParams(profile))
  {
    BlankIsSpaces(given);
    NoQuoteNoMatch(given, "Client");
    var f, all := Field("Client", profile.client), RenderParams(ProfileParams(profile));
    assert "" + f == f && "" + all == all;
    PutOthers("", f, profile);
  }

  // What the parser makes of fields without a scheme: it cuts at the first blank.
  lemma CutAtBlank(before: string, behind: string)
    requires ' ' !in before && Trimmed(before + " " + behind)
    requires TrimSpace(before + " " + behind) != ""
    ensures Parse(before + " " + behind) == ParseParts(map[], Split(TrimSpace(behind), ','))
  {
    var raw := before + " " + behind;
    TrimNothing(raw);
    assert raw == before + [' '] + behind;
    IndexOfFirst(before, ' ', behind);
    assert raw[|before| + 1..] == behind;
  }

  lemma ParamsShape(params: seq<Param>)
    requires ParamsOk(params) && params != []
    ensures Trimmed(RenderParams(params)) && TrimSpace(RenderParams(params)) != ""
  {
    RenderedShape(params);
    TrimNothing(RenderParams(params));
  }

  lemma FirstField(params: seq<Param>)
    requires |params| > 1
    ensures RenderParams(params)
         == params[0].key + "=\"" + params[0].value + "\", " + RenderParams(params[1..])
  {
    RenderHead(params);
  }

  // With no blank in its value, the whole first field is taken for the scheme.
  lemma FirstFieldGone(params: seq<Param>)
    requires ParamsOk(params) && |params| > 1 && ' ' !in params[0].value
    ensures Parse(RenderParams(params)) == AddAll(map[], params[1..])
  {
    var p, tail := params[0], params[1..];
    assert p in params && forall q | q in tail :: q in params;
    var behind := RenderParams(tail);
    FirstAndRest(params);
    ParamsShape(params);
    NoBlankIn(p);
    CutAtBlank(Field(p.key, p.value) + ",", behind);
    ParamsShape(tail);
    TrimNothing(behind);
    assert "" + behind == behind;
    ParseRendered(map[], "", tail);
  }

  lemma FirstAndRest(params: seq<Param>)
    requires |params| > 1
    ensures RenderParams(params) == (Field(params[0].key, params[0].value) + ",") + " " + RenderParams(params[1..])
  {
    var f, text := Field(params[0].key, params[0].value), RenderParams(params[1..]);
    RenderHead(params);
    CommaToField(f, text);
  }

  lemma CommaToField(f: string, text: string)
    ensures f + (", " + text) == (f + ",") + " " + text
  {}

  lemma NoBlankIn(p: Param)
    requires KeyOk(p.key) && ' ' !in p.value
    ensures ' ' !in Field(p.key, p.value) + ","
  {}

  lemma TrimBehind(b: string, text: string)
    requires text != "" && !IsSpace(text[|text| - 1])
    ensures TrimSpace(b + ("\", " + text)) == TrimLeft(b) + ("\", " + text)
  {
    var rest := "\", " + text;
    TrimLeftOf(b, rest);
    var left := TrimLeft(b) + rest;
    assert left[|left| - 1] == text[|text| - 1];
  }

  lemma PartThenFields(b: string, tail: seq<Param>)
    requires ',' !in b && ParamsOk(tail) && tail != []
    ensures ParseParts(map[], Split(TrimLeft(b) + ("\", " + RenderParams(tail)), ','))
         == AddAll(ParsePart(map[], TrimLeft(b) + "\""), tail)
  {
    var head, rest := TrimLeft(b) + "\"", " " + RenderParams(tail);
    LeftShorter(b);
    assert TrimLeft(b) + ("\", " + RenderParams(tail)) == head + [','] + rest;
    ParseHead(map[], head, rest, ParsePart(map[], head));
    ParseRendered(ParsePart(map[], head), " ", tail);
  }

  lemma CutInValue(params: seq<Param>, a: string, b: string)
    requires |params| > 1 && params[0].value == a + " " + b
    ensures RenderParams(params)
         == (params[0].key + "=\"" + a) + " " + (b + ("\", " + RenderParams(params[1..])))
  {
    FirstField(params);
    BlankOutside(params[0].key + "=\"", a, b, "\", ", RenderParams(params[1..]));
  }

  lemma BlankOutside(open: string, a: string, b: string, close: string, text: string)
    ensures open + (a + " " + b) + close + text == (open + a) + " " + (b + (close + text))
  {}

  // With one, the rest of the value after it is read as a part of its own.
  lemma FirstFieldCut(params: seq<Param>, a: string, b: string)
    requires ParamsOk(params) && |params| > 1 && params[0].value == a + " " + b && ' ' !in a
    ensures Parse(RenderParams(params)) == AddAll(ParsePart(map[], TrimLeft(b) + "\""), params[1..])
  {
    var p, tail := params[0], params[1..];
    assert p in params && forall q | q in tail :: q in params;
    var text := RenderParams(tail);
    CutInValue(params, a, b);
    ParamsShape(params);
    CutAtBlank(p.key + "=\"" + a, b + ("\", " + text));
    RenderedShape(tail);
    TrimBehind(b, text);
    assert forall c | c in b :: c in p.value;
    PartThenFields(b, tail);
  }

  // What is read of the first field's value.
  function Leftover(value: string): Fields
  {
    var i := IndexByte(value, ' ');
    if i == |value| then map[] else ParsePart(map[], TrimLeft(value[i + 1..]) + "\"")
  }

  lemma SchemelessParses(params: seq<Param>)
    requires ParamsOk(params) && |params| > 1
    ensures Parse(RenderParams(params)) == AddAll(Leftover(params[0].value), params[1..])
  {
    var v := params[0].value;
    var i := IndexByte(v, ' ');
    if i == |v| {
      FirstFieldGone(params);
    } else {
      FirstFieldCutAt(params, i);
    }
  }

  lemma FirstFieldCutAt(params: seq<Param>, i: nat)
    requires ParamsOk(params) && |params| > 1
    requires var v := params[0].value; i < |v| && v[i] == ' ' && ' ' !in v[..i]
    ensures Parse(RenderParams(params))
         == AddAll(ParsePart(map[], TrimLeft(params[0].value[i + 1..]) + "\""), params[1..])
  {
    var v := params[0].value;
    assert v == v[..i] + " " + v[i + 1..];
    FirstFieldCut(params, v[..i], v[i + 1..]);
  }

  // No part gives a value as long as itself.
  lemma PartShorter(part: string, key: string)
    requires key in ParsePart(map[], part)
    ensures |ParsePart(map[], part)[key]| + 1 < |part|
  {
    var p := TrimSpace(part);
    var i := IndexByte(p, '=');
    Shorter(part);
    Shorter(p[i + 1..]);
    QuotesShorter(TrimSpace(p[i + 1..]));
    assert p[..0] == "" && TrimSpace("") == "";
  }

  lemma {:induction false} UntouchedKey(r: Fields, params: seq<Param>, key: string)
    requires !HasParam(params, key)
    ensures key in AddAll(r, params) <==> key in r
    ensures key in r ==> AddAll(r, params)[key] == r[key]
    decreases |params|
  {
    if params != [] {
      HasParamHead(params, key);
      UntouchedKey(r[params[0].key := params[0].value], params[1..], key);
    }
  }

  lemma LeftoverShorter(value: string, key: string)
    ensures key in Leftover(value) ==> |Leftover(value)[key]| < |value|
  {
    var i := IndexByte(value, ' ');
    if i < |value| {
      var b := value[i + 1..];
      LeftShorter(b);
      if key in ParsePart(map[], TrimLeft(b) + "\"") {
        PartShorter(TrimLeft(b) + "\"", key);
      }
    }
  }

  // So its own value does not come out of the first field.
  lemma FirstValueLost(params: seq<Param>)
    requires ParamsOk(params) && |params| > 1 && !HasParam(params[1..], params[0].key)
    ensures var r, p := Parse(RenderParams(params)), params[0]; p.key in r ==> r[p.key] != p.value
  {
    SchemelessParses(params);
    UntouchedKey(Leftover(params[0].value), params[1..], params[0].key);
    LeftoverShorter(params[0].value, params[0].key);
  }

  lemma ProfileParamsOk(profile: Profile)
    requires ProfileOk(profile)
    ensures ParamsOk(ProfileParams(profile)) && !HasParam(ProfileParams(profile)[1..], "Client")
  {
    NamesOk();
    TailOk(profile);
    var params := ProfileParams(profile);
    assert params == [params[0]] + params[1..];
  }

  // The client's name does not come out of a rewritten blank header, whatever it is.
  lemma BlankLosesClient(profile: Profile, given: string)
    requires ProfileOk(profile) && TrimSpace(given) == ""
    ensures var r := Parse(Rewritten(profile, given)); "Client" in r ==> r["Client"] != profile.client
  {
    BlankIsParams(profile, given);
    ProfileParamsOk(profile);
    FirstValueLost(ProfileParams(profile));
  }

  // ---------- fields without a scheme ----------

  function ValueFor(profile: Profile, name: string): string
    requires IsName(name)
  {
    if name == "Client" then profile.client
    else if name == "Device" then profile.deviceName
    else if name == "DeviceId" then profile.deviceID
    else profile.version
  }

  ghost predicate AllSay(params: seq<Param>, key: string, value: string)
  {
    forall p | p in params && p.key == key :: p.value == value
  }

  lemma {:induction false} SetAllSays(params: seq<Param>, key: string, value: string)
    ensures AllSay(SetAll(params, key, value), key, value)
    decreases |params|
  {
    if params != [] {
      SetAllSays(params[1..], key, value);
    }
  }

  lemma {:induction false} SetAllKeepsSaying(params: seq<Param>, key: string, value: string, k: string, v: string)
    requires k != key && AllSay(params, k, v)
    ensures AllSay(SetAll(params, key, value), k, v)
    decreases |params|
  {
    if params != [] {
      assert params[0] in params && forall q | q in params[1..] :: q in params;
      SetAllKeepsSaying(params[1..], key, value, k, v);
    }
  }

  lemma {:induction false} SetAllHas(params: seq<Param>, key: string, value: string, k: string)
    ensures HasParam(SetAll(params, key, value), k) <==> HasParam(params, k)
    decreases |params|
  {
    if params != [] {
      var s := SetAll(params, key, value);
      SetAllHas(params[1..], key, value, k);
      HasParamHead(s, k);
      HasParamHead(params, k);
      assert s[1..] == SetAll(params[1..], key, value);
    }
  }

  lemma PutSays(params: seq<Param>, key: string, value: string)
    ensures AllSay(Put(params, key, value), key, value)
  {
    SetAllSays(params, key, value);
  }

  lemma PutKeepsSaying(params: seq<Param>, key: string, value: string, k: string, v: string)
    requires k != key && AllSay(params, k, v)
    ensures AllSay(Put(params, key, value), k, v)
  {
    SetAllKeepsSaying(params, key, value, k, v);
  }

  // Putting a key leaves the first key first, and adds the key behind it only where it was missing.
  lemma PutHas(params: seq<Param>, key: string, value: string, k: string)
    requires params != []
    ensures var put := Put(params, key, value);
            && put != [] && put[0].key == params[0].key
            && (HasParam(put[1..], k) <==> HasParam(params[1..], k) || (k == key && !HasParam(params, k)))
            && (HasParam(put, k) <==> HasParam(params, k) || k == key)
  {
    var put := Put(params, key, value);
    if HasParam(params, key) {
      SetAllHas(params[1..], key, value, k);
      SetAllHas(params, key, value, k);
      assert put[1..] == SetAll(params[1..], key, value);
    } else {
      assert put[1..] == params[1..] + [Param(key, value)];
      AppendHas(params[1..], Param(key, value), k);
      AppendHas(params, Param(key, value), k);
    }
  }

  lemma AppendHas(params: seq<Param>, p: Param, k: string)
    ensures HasParam(params + [p], k) <==> HasParam(params, k) || k == p.key
  {
    var all := params + [p];
    assert all[|params|] == p && forall q | q in params :: q in all;
  }

  // A rewritten list of fields: every name is in it with its value only, and behind the first field every
  // name is there that is not the first key, or was there before.
  ghost predicate SaysProfile(params: seq<Param>, put: seq<Param>, profile: Profile)
  {
    && params != [] && put != [] && put[0].key == params[0].key
    && forall name | IsName(name) ::
         && AllSay(put, name, ValueFor(profile, name))
         && (HasParam(put[1..], name) <==> name != params[0].key || HasParam(params[1..], name))
  }

  lemma PutProfileSays(params: seq<Param>, profile: Profile)
    requires params != []
    ensures SaysProfile(params, PutProfile(params, profile), profile)
  {
    var put := PutProfile(params, profile);
    forall name | IsName(name)
      ensures AllSay(put, name, ValueFor(profile, name))
      ensures HasParam(put[1..], name) <==> name != params[0].key || HasParam(params[1..], name)
    {
      ProfileSaid(params, profile, name);
      ProfileHas(params, profile, name);
    }
    ProfileHas(params, profile, "Client");
  }

  lemma ProfileSaid(params: seq<Param>, profile: Profile, name: string)
    requires IsName(name)
    ensures AllSay(PutProfile(params, profile), name, ValueFor(profile, name))
  {
    var p1 := Put(params, "Client", profile.client);
    var p2 := Put(p1, "Device", profile.deviceName);
    var p3 := Put(p2, "DeviceId", profile.deviceID);
    var v := ValueFor(profile, name);
    PutSays(params, "Client", profile.client);
    if name != "Device" && AllSay(p1, name, v) {
      PutKeepsSaying(p1, "Device", profile.deviceName, name, v);
    }
    PutSays(p1, "Device", profile.deviceName);
    if name != "DeviceId" && AllSay(p2, name, v) {
      PutKeepsSaying(p2, "DeviceId", profile.deviceID, name, v);
    }
    PutSays(p2, "DeviceId", profile.deviceID);
    if name != "Version" && AllSay(p3, name, v) {
      PutKeepsSaying(p3, "Version", profile.version, name, v);
    }
    PutSays(p3, "Version", profile.version);
  }

  lemma ProfileHas(params: seq<Param>, profile: Profile, name: string)
    requires params != [] && IsName(name)
    ensures var put := PutProfile(params, profile);
            && put != [] && put[0].key == params[0].key
            && (HasParam(put[1..], name) <==> name != params[0].key || HasParam(params[1..], name))
  {
    var p1 := Put(params, "Client", profile.client);
    var p2 := Put(p1, "Device", profile.deviceName);
    var p3 := Put(p2, "DeviceId", profile.deviceID);
    PutHas(params, "Client", profile.client, name);
    PutHas(p1, "Device", profile.deviceName, name);
    PutHas(p2, "DeviceId", profile.deviceID, name);
    PutHas(p3, "Version", profile.version, name);
    HasParamHead(params, name);
    HasParamHead(PutProfile(params, profile), name);
  }

  lemma {:induction false} SaidIsRead(r: Fields, params: seq<Param>, key: string, value: string)
    requires HasParam(params, key) && AllSay(params, key, value)
    ensures key in AddAll(r, params) && AddAll(r, params)[key] == value
    decreases |params|
  {
    var p, rest := params[0], params[1..];
    assert p in params && forall q | q in rest :: q in params;
    HasParamHead(params, key);
    if HasParam(rest, key) {
      SaidIsRead(r[p.key := p.value], rest, key, value);
    } else {
      UntouchedKey(r[p.key := p.value], rest, key);
    }
  }

  // What a name comes out as, of rewritten fields without a scheme.
  lemma NameReadIff(params: seq<Param>, put: seq<Param>, profile: Profile, name: string)
    requires SaysProfile(params, put, profile) && IsName(name) && ParamsOk(put) && |put| > 1
    ensures var r := Parse(RenderParams(put));
            name in r && r[name] == ValueFor(profile, name) <==> name != params[0].key || HasParam(params[1..], name)
  {
    SchemelessParses(put);
    var v, tail := ValueFor(profile, name), put[1..];
    assert put[0] in put && forall q | q in tail :: q in put;
    if HasParam(tail, name) {
      SaidIsRead(Leftover(put[0].value), tail, name, v);
    } else {
      FirstValueLost(put);
      assert put[0].value == v;
    }
  }

  lemma MoreThanOne(params: seq<Param>, put: seq<Param>, profile: Profile)
    requires SaysProfile(params, put, profile)
    ensures |put| > 1
  {
    var name := if params[0].key == "Client" then "Device" else "Client";
    assert IsName(name) && HasParam(put[1..], name);
  }

  // ---------- when a rewritten header says who the program claims to be ----------

  predicate HasFour(fields: Fields, profile: Profile)
  {
    && "Client" in fields && fields["Client"] == profile.client
    && "Device" in fields && fields["Device"] == profile.deviceName
    && "DeviceId" in fields && fields["DeviceId"] == profile.deviceID
    && "Version" in fields && fields["Version"] == profile.version
  }

  // A scheme word, alone or with fields of which none but the four names end in one of these.
  ghost predicate WellFormed(scheme: string, params: seq<Param>)
  {
    TokenOk(scheme) && '"' !in scheme && ParamsOk(params) && NoOtherName(params)
  }

  lemma WellFormedFour(profile: Profile, scheme: string, params: seq<Param>)
    requires ProfileOk(profile) && WellFormed(scheme, params)
    ensures HasFour(Parse(Rewritten(profile, Render(scheme, params))), profile)
  {
    if params == [] {
      BareSchemeParses(scheme, profile);
    } else {
      RewrittenParses(scheme, params, profile);
    }
  }

  // The headers this is about: blank ones, a scheme word alone, and fields joined by comma and blank, behind
  // a scheme word or without one.
  datatype Header =
    | Blank(text: string)
    | Bare(scheme: string)
    | Schemed(scheme: string, params: seq<Param>)
    | Schemeless(params: seq<Param>)

  function Written(h: Header): string
  {
    match h
    case Blank(text) => text
    case Bare(scheme) => scheme
    case Schemed(scheme, params) => Render(scheme, params)
    case Schemeless(params) => RenderParams(params)
  }

  ghost predicate HeaderOk(h: Header)
  {
    match h
    case Blank(text) => TrimSpace(text) == ""
    case Bare(scheme) => WellFormed(scheme, [])
    case Schemed(scheme, params) => WellFormed(scheme, params) && params != []
    case Schemeless(params) => ParamsOk(params) && NoOtherName(params) && params != []
  }

  // The first key is none of the four names, or comes again.
  predicate FirstSpared(params: seq<Param>)
    requires params != []
  {
    !IsName(params[0].key) || HasParam(params[1..], params[0].key)
  }

  lemma SchemelessFourIff(profile: Profile, params: seq<Param>)
    requires ProfileOk(profile) && ParamsOk(params) && NoOtherName(params) && params != []
    ensures HasFour(Parse(Rewritten(profile, RenderParams(params))), profile) <==> FirstSpared(params)
  {
    var put := PutProfile(params, profile);
    RewrittenIsPut("", params, profile);
    assert "" + RenderParams(params) == RenderParams(params) && "" + RenderParams(put) == RenderParams(put);
    PutProfileSays(params, profile);
    MoreThanOne(params, put, profile);
    var r := Parse(RenderParams(put));
    forall name | IsName(name)
      ensures name in r && r[name] == ValueFor(profile, name) <==> name != params[0].key || HasParam(params[1..], name)
    {
      NameReadIff(params, put, profile, name);
    }
    FourAreNames(r, profile);
  }

  lemma FourAreNames(r: Fields, profile: Profile)
    ensures HasFour(r, profile) <==> forall name | IsName(name) :: name in r && r[name] == ValueFor(profile, name)
  {
    if forall name | IsName(name) :: name in r && r[name] == ValueFor(profile, name) {
      assert IsName("Client") && IsName("Device") && IsName("DeviceId") && IsName("Version");
    }
  }

  // When the four fields of the profile come out of a rewritten header: never of a blank one, always of one
  // with a scheme, and of fields without a scheme exactly if the first key is spared.
  lemma FourFieldsIff(profile: Profile, h: Header)
    requires ProfileOk(profile) && HeaderOk(h)
    ensures HasFour(Parse(Rewritten(profile, Written(h))), profile) <==>
            !h.Blank? && (h.Schemeless? ==> FirstSpared(h.params))
  {
    match h
    case Blank(text) => BlankLosesClient(profile, text);
    case Bare(scheme) => WellFormedFour(profile, scheme, []);
    case Schemed(scheme, params) => WellFormedFour(profile, scheme, params);
    case Schemeless(params) => SchemelessFourIff(profile, params);
  }

  // A blank header can arrive: a no-break space is not empty and is trimmed.
  lemma NoBreakSpaceLosesClient()
    ensures var given := [0xA0 as char];
            given != "" && !HasFour(Parse(Rewritten(INFUSE, given)), INFUSE)
            && !HasFour(Parse(Rewritten(WEB, given)), WEB) && !HasFour(Parse(Rewritten(CLIENT, given)), CLIENT)
  {
    var given: string := [0xA0 as char];
    assert TrimLeft(given) == "";
    InfuseOk();
    WebOk();
    ClientOk();
    FourFieldsIff(INFUSE, Blank(given));
    FourFieldsIff(WEB, Blank(given));
    FourFieldsIff(CLIENT, Blank(given));
  }

  // A header the parser reads, of one field and no scheme: rewritten, it loses the client.
  lemma SchemelessLosesClient()
    ensures var given := "Client=\"Emby\"";
            && Parse(given) == map["Client" := "Emby"]
            && !HasFour(Parse(Rewritten(INFUSE, given)), INFUSE)
            && !HasFour(Parse(Rewritten(WEB, given)), WEB) && !HasFour(Parse(Rewritten(CLIENT, given)), CLIENT)
  {
    var params := [Param("Client", "Emby")];
    OneField();
    InfuseOk();
    WebOk();
    ClientOk();
    FourFieldsIff(INFUSE, Schemeless(params));
    FourFieldsIff(WEB, Schemeless(params));
    FourFieldsIff(CLIENT, Schemeless(params));
  }

  lemma OneField()
    ensures var params := [Param("Client", "Emby")];
            && HeaderOk(Schemeless(params)) && !FirstSpared(params)
            && Written(Schemeless(params)) == "Client=\"Emby\""
            && Parse("Client=\"Emby\"") == map["Client" := "Emby"]
  {
    NamesOk();
    EmbyOk();
    ClientAlone("Emby");
    ReadAlone("Client", "Emby");
  }

  lemma EmbyOk()
    ensures ValueOk("Emby") && ' ' !in "Emby" && Field("Client", "Emby") == "Client=\"Emby\""
  {}

  lemma ClientAlone(value: string)
    ensures var params := [Param("Client", value)];
            NoOtherName(params) && !FirstSpared(params) && RenderParams(params) == Field("Client", value)
  {
    var params := [Param("Client", value)];
    forall name | IsName(name) && HasSuffix("Client", name)
      ensures name == "Client"
    {
      NamesApart("Client", name);
    }
    assert params[1..] == [];
  }

  lemma ReadAlone(key: string, value: string)
    requires KeyOk(key) && ValueOk(value) && ' ' !in value
    ensures Parse(Field(key, value)) == map[key := value]
  {
    var f := Field(key, value);
    FieldShape(key, value);
    TrimNothing(f);
    assert ' ' !in f;
    assert ',' !in f;
    ParseField(map[], "", key, value);
    assert "" + f == f;
    ParseHead(map[], f, "", map[key := value]);
  }
}
