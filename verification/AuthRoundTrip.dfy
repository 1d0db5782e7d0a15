// Headers that are well formed, and what parsing and rewriting make of them.
module AuthRoundTrip {
  import opened Text
  import opened AuthHeader

  // One Key="value" of a header.
  datatype Param = Param(key: string, value: string)

  ghost predicate TokenOk(s: string)
  {
    s != [] && forall c | c in s :: !IsSpace(c)
  }

  ghost predicate KeyOk(key: string)
  {
    TokenOk(key) && '=' !in key && ',' !in key && '"' !in key
  }

  ghost predicate ValueOk(value: string)
  {
    '"' !in value && ',' !in value && (value != [] ==> value[|value| - 1] != '=')
  }

  ghost predicate ParamsOk(params: seq<Param>)
  {
    forall p | p in params :: KeyOk(p.key) && ValueOk(p.value)
  }

  function RenderParams(params: seq<Param>): string
  {
    if params == [] then ""
    else if |params| == 1 then Field(params[0].key, params[0].value)
    else Field(params[0].key, params[0].value) + ", " + RenderParams(params[1..])
  }

  function Render(scheme: string, params: seq<Param>): string
  {
    if params == [] then scheme else scheme + " " + RenderParams(params)
  }

  function AddAll(result: Fields, params: seq<Param>): Fields
    decreases |params|
  {
    if params == [] then result else AddAll(result[params[0].key := params[0].value], params[1..])
  }

  // ---------- parsing what was rendered ----------

  lemma {:induction false} NoQuotesToTrim(s: string)
    requires '"' !in s
    ensures TrimQuotes(s) == s
    ensures TrimQuotes("\"" + s + "\"") == s
  {
    var quoted := "\"" + s + "\"";
    assert quoted[1..] == s + "\"";
    if s == [] {
      assert TrimQuotes(quoted) == TrimQuotes("\"");
      assert "\""[1..] == "";
    } else {
      var half := s + "\"";
      assert s[0] in s && s[|s| - 1] in s;
      assert half[0] != '"' && half[|half| - 1] == '"' && half[..|half| - 1] == s;
    }
  }

  lemma IndexOfFirst(before: string, c: char, behind: string)
    requires c !in before
    ensures IndexByte(before + [c] + behind, c) == |before|
  {
    var s := before + [c] + behind;
    assert s[|before|] == c && forall j | 0 <= j < |before| :: s[j] == before[j];
  }

  lemma FieldShape(key: string, value: string)
    requires KeyOk(key)
    ensures var f := Field(key, value); Trimmed(f) && f != [] && f[0] == key[0] && f[|f| - 1] == '"'
  {
    assert key[0] in key;
  }

  lemma CutField(key: string, value: string)
    requires KeyOk(key)
    ensures var f := Field(key, value);
            IndexByte(f, '=') == |key| && f[..|key|] == key && f[|key| + 1..] == "\"" + value + "\""
  {
    var f, quoted := Field(key, value), "\"" + value + "\"";
    assert f == key + ['='] + quoted;
    IndexOfFirst(key, '=', quoted);
  }

  lemma TrimQuoted(value: string)
    requires ValueOk(value)
    ensures TrimQuotes(TrimSpace("\"" + value + "\"")) == value
  {
    var quoted := "\"" + value + "\"";
    assert quoted[0] == '"' && quoted[|quoted| - 1] == '"';
    TrimNothing(quoted);
    NoQuotesToTrim(value);
  }

  lemma TrimKey(key: string)
    requires TokenOk(key)
    ensures TrimSpace(key) == key
  {
    assert key[0] in key && key[|key| - 1] in key;
    TrimNothing(key);
  }

  lemma TrimField(lead: string, key: string, value: string)
    requires KeyOk(key) && (lead == "" || lead == " ")
    ensures TrimSpace(lead + Field(key, value)) == Field(key, value)
  {
    FieldShape(key, value);
    TrimLead(lead, Field(key, value));
    TrimNothing(Field(key, value));
  }

  lemma ParseTrimmedField(result: Fields, key: string, value: string)
    requires KeyOk(key) && ValueOk(value)
    ensures ParseTrimmed(result, Field(key, value)) == result[key := value]
  {
    CutField(key, value);
    TrimKey(key);
    TrimQuoted(value);
  }

  lemma ParseField(result: Fields, lead: string, key: string, value: string)
    requires KeyOk(key) && ValueOk(value) && (lead == "" || lead == " ")
    ensures ParsePart(result, lead + Field(key, value)) == result[key := value]
  {
    TrimField(lead, key, value);
    ParseTrimmedField(result, key, value);
  }

  lemma TrimLead(lead: string, s: string)
    requires lead == "" || lead == " "
    ensures TrimSpace(lead + s) == TrimSpace(s)
  {
    if lead == " " {
      assert (lead + s)[1..] == s;
    } else {
      assert lead + s == s;
    }
  }

  lemma ParseHead(result: Fields, head: string, rest: string, next: Fields)
    requires ',' !in head && ParsePart(result, head) == next
    ensures ParseParts(result, Split(head, ',')) == next
    ensures ParseParts(result, Split(head + [','] + rest, ',')) == ParseParts(next, Split(rest, ','))
  {
    SplitHead(head, rest, ',');
    assert [head][1..] == [];
    assert ([head] + Split(rest, ','))[1..] == Split(rest, ',');
  }

  lemma RenderCut(lead: string, params: seq<Param>)
    requires params != []
    ensures var head, rest := lead + Field(params[0].key, params[0].value), params[1..];
            lead + RenderParams(params) == if rest == [] then head else head + [','] + (" " + RenderParams(rest))
  {
    var f, rest := Field(params[0].key, params[0].value), params[1..];
    if rest != [] {
      assert lead + (f + ", " + RenderParams(rest)) == (lead + f) + [','] + (" " + RenderParams(rest));
    }
  }

  lemma {:induction false} ParseRendered(result: Fields, lead: string, params: seq<Param>)
    requires ParamsOk(params) && params != [] && (lead == "" || lead == " ")
    ensures ParseParts(result, Split(lead + RenderParams(params), ',')) == AddAll(result, params)
    decreases |params|
  {
    var p, rest := params[0], params[1..];
    assert p in params && forall q | q in rest :: q in params;
    RenderCut(lead, params);
    FieldHead(result, lead, p, " " + RenderParams(rest));
    if rest != [] {
      ParseRendered(result[p.key := p.value], " ", rest);
    }
  }

  // The first field is read, and what follows the comma after it.
  lemma FieldHead(result: Fields, lead: string, p: Param, behind: string)
    requires KeyOk(p.key) && ValueOk(p.value) && (lead == "" || lead == " ")
    ensures var head, next := lead + Field(p.key, p.value), result[p.key := p.value];
            && ParseParts(result, Split(head, ',')) == next
            && ParseParts(result, Split(head + [','] + behind, ',')) == ParseParts(next, Split(behind, ','))
  {
    var head := lead + Field(p.key, p.value);
    assert ',' !in head;
    ParseField(result, lead, p.key, p.value);
    ParseHead(result, head, behind, result[p.key := p.value]);
  }

  lemma {:induction false} RenderedShape(params: seq<Param>)
    requires ParamsOk(params) && params != []
    ensures var r := RenderParams(params); Trimmed(r) && r != [] && !IsSpace(r[0]) && r[|r| - 1] == '"'
    decreases |params|
  {
    assert params[0] in params;
    FieldShape(params[0].key, params[0].value);
    if |params| > 1 {
      assert forall q | q in params[1..] :: q in params;
      RenderedShape(params[1..]);
      var f, r := Field(params[0].key, params[0].value), RenderParams(params[1..]);
      assert RenderParams(params) == f + ", " + r;
    }
  }

  // Parsing a well-formed header gives its fields, the last value where a key is repeated.
  lemma ParseIsAddAll(scheme: string, params: seq<Param>)
    requires TokenOk(scheme) && ParamsOk(params) && params != []
    ensures Parse(Render(scheme, params)) == AddAll(map[], params)
  {
    var r := RenderParams(params);
    var raw := scheme + " " + r;
    RenderedShape(params);
    assert scheme[0] in scheme;
    assert Trimmed(raw);
    TrimNothing(raw);
    assert ' ' !in scheme;
    assert raw == scheme + [' '] + r;
    IndexOfFirst(scheme, ' ', r);
    assert raw[|scheme| + 1..] == r;
    TrimNothing(r);
    ParseRendered(map[], "", params);
    assert "" + r == r;
  }

  // ---------- the header the program builds ----------

  ghost predicate ProfileOk(profile: Profile)
  {
    ValueOk(profile.client) && ValueOk(profile.version) && ValueOk(profile.deviceName) && ValueOk(profile.deviceID)
  }

  function ProfileParams(profile: Profile): seq<Param>
  {
    [Param("Client", profile.client), Param("Device", profile.deviceName),
     Param("DeviceId", profile.deviceID), Param("Version", profile.version)]
  }

  function ProfileFields(result: Fields, profile: Profile): Fields
  {
    result["Client" := profile.client]["Device" := profile.deviceName]
      ["DeviceId" := profile.deviceID]["Version" := profile.version]
  }

  // ---------- where a pattern can match ----------

  // Skipping a stretch in which no match begins.
  lemma {:induction false} SkipClean(a: string, b: string, key: string, replacement: string)
    requires forall i | 0 <= i < |a| :: !Matches((a + b)[i..], key)
    ensures ReplaceAll(a + b, key, replacement) == a + ReplaceAll(b, key, replacement)
    ensures MatchesSomewhere(a + b, key) <==> MatchesSomewhere(b, key)
    decreases |a|
  {
    if a == [] {
      assert a + b == b;
    } else {
      var t := a + b;
      assert t[0..] == t && t[0] == a[0];
      assert !Matches(t, key);
      assert t[1..] == a[1..] + b;
      forall i | 0 <= i < |a[1..]|
        ensures !Matches((a[1..] + b)[i..], key)
      {
        assert (a[1..] + b)[i..] == (a + b)[i + 1..];
      }
      SkipClean(a[1..], b, key, replacement);
      assert [a[0]] + (a[1..] + ReplaceAll(b, key, replacement)) == a + ReplaceAll(b, key, replacement);
    }
  }

  // A match at a place has its key there, followed by an equals sign and a quote.
  lemma MatchOpens(text: string, i: nat, key: string)
    requires i <= |text|
    ensures Matches(text[i..], key) ==>
              && i + |key| + 1 < |text| && text[i..i + |key|] == key
              && text[i + |key|] == '=' && text[i + |key| + 1] == '"'
  {
    var t, opener := text[i..], key + "=\"";
    if opener <= t {
      assert t[..|opener|] == opener;
      assert t[|key|] == opener[|key|] && t[|key| + 1] == opener[|key| + 1];
      assert t[..|key|] == key;
    }
  }

  // In a field, an equals sign before a quote is the one behind the key.
  lemma OpeningPlace(key: string, value: string, behind: string, q: nat)
    requires KeyOk(key) && ValueOk(value)
    ensures var text := Field(key, value) + behind;
            q < |Field(key, value)| && q + 1 < |text| && text[q] == '=' && text[q + 1] == '"' ==> q == |key|
  {
    var f := Field(key, value);
    var text := f + behind;
    assert forall j | 0 <= j < |key| :: text[j] == key[j] && key[j] in key;
    assert forall j | 0 <= j < |value| :: text[|key| + 2 + j] == value[j] && value[j] in value;
    assert text[|key| + 1] == '"' && text[|f| - 1] == '"';
  }

  lemma InsideWord(text: string, i: nat, at: nat, key: string)
    requires i <= at < i + |key| <= |text| && text[at] !in key
    ensures text[i..i + |key|] != key
  {
    assert text[i..i + |key|][at - i] == text[at];
    assert key[at - i] in key;
  }

  // A match that reaches past a character its key does not have is none.
  lemma NoMatchAcross(text: string, i: nat, at: nat, key: string)
    requires i <= at < i + |key| && at < |text| && text[at] !in key
    ensures !Matches(text[i..], key)
  {
    MatchOpens(text, i, key);
    if i + |key| <= |text| {
      InsideWord(text, i, at, key);
    }
  }

  lemma NoMatchInField(key: string, value: string, behind: string, pattern: string, i: nat)
    requires KeyOk(key) && ValueOk(value) && KeyOk(pattern) && !HasSuffix(key, pattern)
    requires i + |pattern| < |Field(key, value)|
    ensures !Matches((Field(key, value) + behind)[i..], pattern)
  {
    var text := Field(key, value) + behind;
    MatchOpens(text, i, pattern);
    OpeningPlace(key, value, behind, i + |pattern|);
    assert i + |pattern| == |key| ==> text[i..i + |pattern|] == key[i..];
  }

  // No match begins inside another key's field, or in the comma and blank after it.
  lemma FieldClean(key: string, value: string, sep: string, rest: string, pattern: string, i: nat)
    requires KeyOk(key) && ValueOk(value) && KeyOk(pattern) && !HasSuffix(key, pattern)
    requires sep == ", " || (sep == "" && rest == "")
    requires i < |Field(key, value) + sep|
    ensures !Matches((Field(key, value) + sep + rest)[i..], pattern)
  {
    var f := Field(key, value);
    var text := f + sep + rest;
    assert text == f + (sep + rest);
    assert f[|f| - 1] == '"' && text[|f| - 1] == f[|f| - 1];
    assert sep != "" ==> text[|f|] == ',' && text[|f| + 1] == ' ';
    if i + |pattern| < |f| {
      NoMatchInField(key, value, sep + rest, pattern, i);
    } else if i < |f| {
      NoMatchAcross(text, i, |f| - 1, pattern);
    } else if i + |pattern| > |f| + 1 {
      NoMatchAcross(text, i, |f| + 1, pattern);
    } else {
      MatchOpens(text, i, pattern);
    }
  }

  lemma SchemeClean(scheme: string, rest: string, pattern: string, i: nat)
    requires TokenOk(scheme) && '"' !in scheme && KeyOk(pattern) && i <= |scheme|
    ensures !Matches((scheme + " " + rest)[i..], pattern)
  {
    var text, n := scheme + " " + rest, |scheme|;
    assert text[n] == ' ' && forall j | 0 <= j < n :: text[j] == scheme[j] && scheme[j] in scheme;
    if i + |pattern| > n {
      NoMatchAcross(text, i, n, pattern);
    } else {
      MatchOpens(text, i, pattern);
    }
  }

  // At the field of the pattern's own key, the match is the whole field.
  lemma FieldMatches(key: string, value: string, behind: string)
    requires KeyOk(key) && ValueOk(value)
    ensures Matches(Field(key, value) + behind, key) && AfterMatch(Field(key, value) + behind, key) == behind
  {
    var text := Field(key, value) + behind;
    var tail := value + "\"" + behind;
    assert text == (key + "=\"") + tail;
    assert text[|key| + 2..] == tail;
    assert tail == value + ['"'] + behind;
    assert tail[|value|] == '"';
    IndexOfFirst(value, '"', behind);
  }

  // ---------- rewriting one key ----------

  function SetAll(params: seq<Param>, key: string, value: string): (r: seq<Param>)
    ensures |r| == |params|
  {
    if params == [] then []
    else [if params[0].key == key then Param(key, value) else params[0]] + SetAll(params[1..], key, value)
  }

  predicate HasParam(params: seq<Param>, key: string)
  {
    exists p | p in params :: p.key == key
  }

  // No key but the pattern's own ends in it.
  ghost predicate NoOther(params: seq<Param>, key: string)
  {
    forall p | p in params :: HasSuffix(p.key, key) ==> p.key == key
  }

  lemma ReplaceOwn(key: string, old_: string, after: string, replacement: string)
    requires KeyOk(key) && ValueOk(old_)
    ensures ReplaceAll(Field(key, old_) + after, key, replacement) == replacement + ReplaceAll(after, key, replacement)
    ensures MatchesSomewhere(Field(key, old_) + after, key)
  {
    FieldMatches(key, old_, after);
  }

  lemma ReplaceOther(p: Param, sep: string, behind: string, key: string, replacement: string)
    requires KeyOk(p.key) && ValueOk(p.value) && KeyOk(key) && !HasSuffix(p.key, key)
    requires sep == ", " || (sep == "" && behind == "")
    ensures var f := Field(p.key, p.value);
            && ReplaceAll(f + (sep + behind), key, replacement) == f + (sep + ReplaceAll(behind, key, replacement))
            && (MatchesSomewhere(f + (sep + behind), key) <==> MatchesSomewhere(behind, key))
  {
    var f := Field(p.key, p.value);
    var c, r := f + sep, ReplaceAll(behind, key, replacement);
    forall i | 0 <= i < |c|
      ensures !Matches((c + behind)[i..], key)
    {
      FieldClean(p.key, p.value, sep, behind, key, i);
    }
    SkipClean(c, behind, key, replacement);
    assert c + behind == f + (sep + behind);
    assert c + r == f + (sep + r);
  }

  // The first field, of the pattern's key or of another, and what is made of the rest.
  lemma ReplaceHead(p: Param, sep: string, behind: string, key: string, replacement: string)
    requires KeyOk(p.key) && ValueOk(p.value) && KeyOk(key) && (HasSuffix(p.key, key) ==> p.key == key)
    requires sep == ", " || (sep == "" && behind == "")
    ensures ReplaceAll(Field(p.key, p.value) + (sep + behind), key, replacement)
         == (if p.key == key then replacement else Field(p.key, p.value)) + (sep + ReplaceAll(behind, key, replacement))
    ensures MatchesSomewhere(Field(p.key, p.value) + (sep + behind), key) <==>
            p.key == key || MatchesSomewhere(behind, key)
  {
    if p.key == key {
      ReplaceOwn(key, p.value, sep + behind, replacement);
      SeparatorClean(sep, behind, key, replacement);
    } else {
      ReplaceOther(p, sep, behind, key, replacement);
    }
  }

  lemma RenderHead(params: seq<Param>)
    requires params != []
    ensures RenderParams(params) == Field(params[0].key, params[0].value)
                                    + ((if params[1..] == [] then "" else ", ") + RenderParams(params[1..]))
  {
    var f := Field(params[0].key, params[0].value);
    if |params| == 1 {
      assert f + ("" + "") == f;
    } else {
      assert f + ", " + RenderParams(params[1..]) == f + (", " + RenderParams(params[1..]));
    }
  }

  lemma {:induction false} ReplaceInParams(params: seq<Param>, key: string, value: string)
    requires ParamsOk(params) && KeyOk(key) && NoOther(params, key)
    ensures ReplaceAll(RenderParams(params), key, Field(key, value)) == RenderParams(SetAll(params, key, value))
    ensures MatchesSomewhere(RenderParams(params), key) <==> HasParam(params, key)
    decreases |params|
  {
    if params != [] {
      var p, rest := params[0], params[1..];
      assert p in params && forall q | q in rest :: q in params;
      ReplaceInParams(rest, key, value);
      RenderHead(params);
      var set' := SetAll(params, key, value);
      assert set'[1..] == SetAll(rest, key, value);
      RenderHead(set');
      ReplaceHead(p, if rest == [] then "" else ", ", RenderParams(rest), key, Field(key, value));
      HasParamHead(params, key);
    }
  }

  lemma HasParamHead(params: seq<Param>, key: string)
    requires params != []
    ensures HasParam(params, key) <==> params[0].key == key || HasParam(params[1..], key)
  {
    assert params == [params[0]] + params[1..];
  }

  lemma SeparatorClean(sep: string, behind: string, key: string, replacement: string)
    requires KeyOk(key) && (sep == ", " || (sep == "" && behind == ""))
    ensures ReplaceAll(sep + behind, key, replacement) == sep + ReplaceAll(behind, key, replacement)
  {
    if sep == ", " {
      forall i | 0 <= i < |sep|
        ensures !Matches((sep + behind)[i..], key)
      {
        assert (sep + behind)[i..][0] == sep[i];
        assert key[0] in key && (key + "=\"")[0] == key[0];
      }
      SkipClean(sep, behind, key, replacement);
    } else {
      assert sep + behind == behind;
    }
  }

  // ---------- replacing or appending ----------

  function Put(params: seq<Param>, key: string, value: string): seq<Param>
  {
    if HasParam(params, key) then SetAll(params, key, value) else params + [Param(key, value)]
  }

  lemma {:induction false} RenderAppend(params: seq<Param>, p: Param)
    requires params != []
    ensures RenderParams(params + [p]) == RenderParams(params) + ", " + Field(p.key, p.value)
    decreases |params|
  {
    var all := params + [p];
    assert all[1..] == params[1..] + [p];
    var f, last := Field(params[0].key, params[0].value), Field(p.key, p.value);
    if |params| == 1 {
      assert RenderParams(all[1..]) == last;
    } else {
      RenderAppend(params[1..], p);
      var r := RenderParams(params[1..]);
      assert f + ", " + (r + ", " + last) == (f + ", " + r) + ", " + last;
    }
  }

  // What may stand before the fields: nothing, or a scheme and a blank.
  ghost predicate LeadOk(lead: string)
  {
    lead == "" || exists scheme :: TokenOk(scheme) && '"' !in scheme && lead == scheme + " "
  }

  lemma LeadClean(lead: string, rest: string, pattern: string, replacement: string)
    requires LeadOk(lead) && KeyOk(pattern)
    ensures ReplaceAll(lead + rest, pattern, replacement) == lead + ReplaceAll(rest, pattern, replacement)
    ensures MatchesSomewhere(lead + rest, pattern) <==> MatchesSomewhere(rest, pattern)
  {
    if lead == "" {
      assert lead + rest == rest;
    } else {
      var scheme :| TokenOk(scheme) && '"' !in scheme && lead == scheme + " ";
      forall i | 0 <= i < |lead|
        ensures !Matches((lead + rest)[i..], pattern)
      {
        SchemeClean(scheme, rest, pattern, i);
      }
      SkipClean(lead, rest, pattern, replacement);
    }
  }

  lemma NotBlank(lead: string, params: seq<Param>)
    requires LeadOk(lead) && ParamsOk(params) && params != []
    ensures TrimSpace(lead + RenderParams(params)) != ""
  {
    RenderedShape(params);
    var text := lead + RenderParams(params);
    if lead != "" {
      var scheme :| TokenOk(scheme) && '"' !in scheme && lead == scheme + " ";
      assert scheme[0] in scheme && text[0] == scheme[0];
    }
    assert Trimmed(text);
    TrimNothing(text);
  }

  lemma RewriteOne(lead: string, params: seq<Param>, key: string, value: string)
    requires LeadOk(lead) && ParamsOk(params) && params != [] && KeyOk(key) && NoOther(params, key)
    ensures ReplaceOrAppend(lead + RenderParams(params), key, Field(key, value))
            == lead + RenderParams(Put(params, key, value))
  {
    var text, field := RenderParams(params), Field(key, value);
    LeadClean(lead, text, key, field);
    ReplaceInParams(params, key, value);
    if !HasParam(params, key) {
      NotBlank(lead, params);
      RenderAppend(params, Param(key, value));
      AppendBehind(lead, text, ", ", field);
    }
  }

  lemma AppendBehind(a: string, b: string, c: string, d: string)
    ensures a + b + c + d == a + (b + c + d)
  {}

  lemma {:induction false} SetAllKeeps(params: seq<Param>, key: string, value: string)
    requires ParamsOk(params) && KeyOk(key) && ValueOk(value)
    ensures ParamsOk(SetAll(params, key, value))
    ensures forall k :: HasParam(SetAll(params, key, value), k) <==> HasParam(params, k)
    decreases |params|
  {
    if params != [] {
      assert forall q | q in params[1..] :: q in params;
      assert params[0] in params;
      SetAllKeeps(params[1..], key, value);
      var s := SetAll(params, key, value);
      assert s[1..] == SetAll(params[1..], key, value);
      forall k
        ensures HasParam(s, k) <==> HasParam(params, k)
      {
        HasParamHead(s, k);
        HasParamHead(params, k);
      }
      assert s == [s[0]] + s[1..];
    }
  }

  lemma {:induction false} AddAllSet(r: Fields, t: Fields, params: seq<Param>, key: string, value: string)
    requires r[key := value] == t[key := value]
    ensures AddAll(r, SetAll(params, key, value))[key := value] == AddAll(t, params)[key := value]
    ensures HasParam(params, key) || (key in r && r[key] == value) ==>
              var a := AddAll(r, SetAll(params, key, value)); key in a && a[key] == value
    decreases |params|
  {
    if params != [] {
      var p, s := params[0], SetAll(params, key, value);
      assert s[1..] == SetAll(params[1..], key, value);
      var r', t' := r[s[0].key := s[0].value], t[p.key := p.value];
      assert r'[key := value] == t'[key := value] by {
        if p.key == key {
          assert r'[key := value] == r[key := value] && t'[key := value] == t[key := value];
        } else {
          assert r'[key := value] == r[key := value][p.key := p.value];
          assert t'[key := value] == t[key := value][p.key := p.value];
        }
      }
      AddAllSet(r', t', params[1..], key, value);
      HasParamHead(params, key);
    }
  }

  lemma {:induction false} AddAllOne(r: Fields, params: seq<Param>, p: Param)
    ensures AddAll(r, params + [p]) == AddAll(r, params)[p.key := p.value]
    decreases |params|
  {
    var all := params + [p];
    if params == [] {
      assert all[1..] == [];
    } else {
      assert all[1..] == params[1..] + [p];
      AddAllOne(r[params[0].key := params[0].value], params[1..], p);
    }
  }

  // Putting a key changes that key's value, whatever is read after it, and keeps everything well formed.
  lemma PutKeeps(params: seq<Param>, key: string, value: string)
    requires ParamsOk(params) && params != [] && KeyOk(key) && ValueOk(value)
    ensures ParamsOk(Put(params, key, value)) && Put(params, key, value) != []
    ensures AddAll(map[], Put(params, key, value)) == AddAll(map[], params)[key := value]
    ensures forall k | NoOther(params, k) && (HasSuffix(key, k) ==> key == k) :: NoOther(Put(params, key, value), k)
  {
    var put := Put(params, key, value);
    if HasParam(params, key) {
      SetAllKeeps(params, key, value);
      AddAllSet(map[], map[], params, key, value);
      forall k, q | NoOther(params, k) && q in put && HasSuffix(q.key, k)
        ensures q.key == k
      {
        assert HasParam(put, q.key);
        var x :| x in params && x.key == q.key;
      }
    } else {
      AddAllOne(map[], params, Param(key, value));
      assert forall q | q in put :: q in params || q == Param(key, value);
    }
  }

  // ---------- the theorems ----------

  predicate IsName(key: string)
  {
    key == "Client" || key == "Device" || key == "DeviceId" || key == "Version"
  }

  ghost predicate NoOtherName(params: seq<Param>)
  {
    forall name | IsName(name) :: NoOther(params, name)
  }

  lemma NamesOk()
    ensures KeyOk("Client") && KeyOk("Device") && KeyOk("DeviceId") && KeyOk("Version")
  {}

  function PutProfile(params: seq<Param>, profile: Profile): seq<Param>
  {
    var p1 := Put(params, "Client", profile.client);
    var p2 := Put(p1, "Device", profile.deviceName);
    var p3 := Put(p2, "DeviceId", profile.deviceID);
    Put(p3, "Version", profile.version)
  }

  // No name ends in another.
  lemma NamesApart(a: string, b: string)
    requires IsName(a) && IsName(b) && HasSuffix(a, b)
    ensures a == b
  {
    assert a[|a| - 1] == b[|b| - 1];
  }

  lemma NamesKept(params: seq<Param>, key: string, value: string)
    requires ParamsOk(params) && params != [] && NoOtherName(params) && IsName(key) && KeyOk(key) && ValueOk(value)
    ensures NoOtherName(Put(params, key, value))
  {
    PutKeeps(params, key, value);
    forall name | IsName(name)
      ensures NoOther(Put(params, key, value), name)
    {
      assert NoOther(params, name);
      if HasSuffix(key, name) {
        NamesApart(key, name);
      }
    }
  }

  lemma PutStep(lead: string, params: seq<Param>, key: string, value: string)
    requires LeadOk(lead) && ParamsOk(params) && params != [] && NoOtherName(params)
    requires IsName(key) && KeyOk(key) && ValueOk(value)
    ensures var put := Put(params, key, value);
            && ReplaceOrAppend(lead + RenderParams(params), key, Field(key, value)) == lead + RenderParams(put)
            && ParamsOk(put) && put != [] && NoOtherName(put)
            && AddAll(map[], put) == AddAll(map[], params)[key := value]
  {
    assert NoOther(params, key);
    RewriteOne(lead, params, key, value);
    PutKeeps(params, key, value);
    NamesKept(params, key, value);
  }

  lemma RewrittenIsPut(lead: string, params: seq<Param>, profile: Profile)
    requires LeadOk(lead) && ParamsOk(params) && params != [] && NoOtherName(params) && ProfileOk(profile)
    ensures Rewritten(profile, lead + RenderParams(params)) == lead + RenderParams(PutProfile(params, profile))
    ensures ParamsOk(PutProfile(params, profile)) && PutProfile(params, profile) != []
    ensures AddAll(map[], PutProfile(params, profile)) == ProfileFields(AddAll(map[], params), profile)
  {
    NamesOk();
    var p1 := Put(params, "Client", profile.client);
    PutStep(lead, params, "Client", profile.client);
    var p2 := Put(p1, "Device", profile.deviceName);
    PutStep(lead, p1, "Device", profile.deviceName);
    var p3 := Put(p2, "DeviceId", profile.deviceID);
    PutStep(lead, p2, "DeviceId", profile.deviceID);
    PutStep(lead, p3, "Version", profile.version);
  }

  // Rewriting a well-formed header sets exactly the four fields of the profile, as the parser reads it,
  // and leaves every other field.
  lemma RewrittenParses(scheme: string, params: seq<Param>, profile: Profile)
    requires TokenOk(scheme) && '"' !in scheme && ParamsOk(params) && params != []
    requires NoOtherName(params) && ProfileOk(profile)
    ensures Parse(Rewritten(profile, Render(scheme, params))) == ProfileFields(Parse(Render(scheme, params)), profile)
  {
    var lead := scheme + " ";
    RewrittenIsPut(lead, params, profile);
    ParseIsAddAll(scheme, params);
    ParseIsAddAll(scheme, PutProfile(params, profile));
  }

  function Texts(params: seq<Param>): (texts: seq<string>)
    ensures |texts| == |params|
  {
    seq(|params|, i requires 0 <= i < |params| => Field(params[i].key, params[i].value))
  }

  lemma {:induction false} RenderIsJoin(params: seq<Param>)
    ensures RenderParams(params) == Join(Texts(params), ", ")
    decreases |params|
  {
    if |params| > 1 {
      assert Texts(params)[1..] == Texts(params[1..]);
      RenderIsJoin(params[1..]);
    }
  }

  lemma JoinHead(lead: string, parts: seq<string>, sep: string)
    requires parts != []
    ensures Join([lead + parts[0]] + parts[1..], sep) == lead + Join(parts, sep)
  {
    var all := [lead + parts[0]] + parts[1..];
    assert all[1..] == parts[1..];
    if |parts| > 1 {
      var rest := Join(parts[1..], sep);
      assert (lead + parts[0]) + sep + rest == lead + (parts[0] + sep + rest);
    }
  }

  lemma BuiltIsRendered(profile: Profile)
    ensures BuildAuthorizationHeader(profile) == Render("MediaBrowser", ProfileParams(profile))
  {
    var params := ProfileParams(profile);
    var c, d, i, v := Field("Client", profile.client), Field("Device", profile.deviceName),
                      Field("DeviceId", profile.deviceID), Field("Version", profile.version);
    var lead := "MediaBrowser" + " ";
    assert lead == "MediaBrowser ";
    assert Texts(params) == [c, d, i, v];
    assert [lead + c] + [c, d, i, v][1..] == ["MediaBrowser " + c, d, i, v];
    JoinHead(lead, [c, d, i, v], ", ");
    RenderIsJoin(params);
  }

  lemma AddAllProfile(profile: Profile)
    ensures AddAll(map[], ProfileParams(profile)) == ProfileFields(map[], profile)
  {
    var params := ProfileParams(profile);
    var r0: Fields := map[];
    var r1 := r0["Client" := profile.client];
    var r2 := r1["Device" := profile.deviceName];
    var r3 := r2["DeviceId" := profile.deviceID];
    var r4 := r3["Version" := profile.version];
    assert params[1..] == [params[1], params[2], params[3]];
    assert params[1..][1..] == [params[2], params[3]];
    assert [params[2], params[3]][1..] == [params[3]];
    assert AddAll(r0, params) == AddAll(r1, [params[1], params[2], params[3]]);
    assert [params[1], params[2], params[3]][1..] == [params[2], params[3]];
    assert AddAll(r1, [params[1], params[2], params[3]]) == AddAll(r2, [params[2], params[3]]);
    assert AddAll(r2, [params[2], params[3]]) == AddAll(r3, [params[3]]);
    assert [params[3]][1..] == [];
    assert AddAll(r3, [params[3]]) == r4;
  }

  // The header the program builds parses to the profile's four fields.
  lemma BuiltParses(profile: Profile)
    requires ProfileOk(profile)
    ensures Parse(BuildAuthorizationHeader(profile)) == ProfileFields(map[], profile)
  {
    NamesOk();
    BuiltIsRendered(profile);
    ParseIsAddAll("MediaBrowser", ProfileParams(profile));
    AddAllProfile(profile);
  }

  // The three identities meet what the theorems ask of a profile, and none has a dollar sign, which the
  // replacement would expand.
  lemma InfuseOk()
    ensures ProfileOk(INFUSE)
  {
    assert ValueOk(INFUSE.client);
    assert ValueOk(INFUSE.version);
    assert ValueOk(INFUSE.deviceName);
    assert ValueOk(INFUSE.deviceID);
  }

  lemma WebOk()
    ensures ProfileOk(WEB)
  {
    assert ValueOk(WEB.client);
    assert ValueOk(WEB.version);
    assert ValueOk(WEB.deviceName);
    assert ValueOk(WEB.deviceID);
  }

  lemma ClientOk()
    ensures ProfileOk(CLIENT)
  {
    assert ValueOk(CLIENT.client);
    assert ValueOk(CLIENT.version);
    assert ValueOk(CLIENT.deviceName);
    assert ValueOk(CLIENT.deviceID);
  }

  lemma NoDollars()
    ensures NoDollar(INFUSE) && NoDollar(WEB) && NoDollar(CLIENT)
  {}

  predicate NoDollar(profile: Profile)
  {
    '$' !in profile.client && '$' !in profile.version && '$' !in profile.deviceName && '$' !in profile.deviceID
  }

  // ---------- headers without fields ----------

  lemma {:induction false} NoQuoteNoMatch(s: string, key: string)
    requires '"' !in s
    ensures !MatchesSomewhere(s, key)
    decreases |s|
  {
    if s != [] {
      NoQuoteNoMatch(s[1..], key);
      assert forall c | |key| + 2 <= |s| && c in s[|key| + 2..] :: c in s;
    }
  }

  // The three keys after Client.
  lemma PutOthers(lead: string, first: string, profile: Profile)
    requires LeadOk(lead) && ProfileOk(profile) && first == lead + RenderParams([Param("Client", profile.client)])
    ensures var v2 := ReplaceOrAppend(first, "Device", Field("Device", profile.deviceName));
            var v3 := ReplaceOrAppend(v2, "DeviceId", Field("DeviceId", profile.deviceID));
            ReplaceOrAppend(v3, "Version", Field("Version", profile.version))
              == lead + RenderParams(ProfileParams(profile))
  {
    NamesOk();
    var c, d := Param("Client", profile.client), Param("Device", profile.deviceName);
    var i, v := Param("DeviceId", profile.deviceID), Param("Version", profile.version);
    assert NoOtherName([c]) by {
      forall name | IsName(name) && HasSuffix("Client", name)
        ensures name == "Client"
      {
        NamesApart("Client", name);
      }
    }
    PutStep(lead, [c], "Device", profile.deviceName);
    assert Put([c], "Device", profile.deviceName) == [c, d];
    PutStep(lead, [c, d], "DeviceId", profile.deviceID);
    assert Put([c, d], "DeviceId", profile.deviceID) == [c, d, i];
    PutStep(lead, [c, d, i], "Version", profile.version);
    assert Put([c, d, i], "Version", profile.version) == [c, d, i, v];
  }

  // A header that is only a scheme gets the four fields, and they are read back.
  lemma BareSchemeParses(scheme: string, profile: Profile)
    requires TokenOk(scheme) && '"' !in scheme && ProfileOk(profile)
    ensures Parse(Rewritten(profile, scheme)) == ProfileFields(map[], profile)
  {
    NamesOk();
    NoQuoteNoMatch(scheme, "Client");
    assert scheme[0] in scheme && scheme[|scheme| - 1] in scheme;
    TrimNothing(scheme);
    var lead := (scheme + ",") + " ";
    assert TokenOk(scheme + ",") && '"' !in scheme + ",";
    var f := Field("Client", profile.client);
    assert scheme + ", " + f == lead + RenderParams([Param("Client", profile.client)]);
    PutOthers(lead, scheme + ", " + f, profile);
    ParseIsAddAll(scheme + ",", ProfileParams(profile));
    AddAllProfile(profile);
  }

  lemma TailOk(profile: Profile)
    requires ProfileOk(profile)
    ensures var tail := ProfileParams(profile)[1..]; tail != [] && ParamsOk(tail) && !HasParam(tail, "Client")
  {
    NamesOk();
    var tail := ProfileParams(profile)[1..];
    assert tail == [Param("Device", profile.deviceName), Param("DeviceId", profile.deviceID),
                    Param("Version", profile.version)];
    assert |"Client"| == 6 && |"Device"| == 6 && "Device"[0] != "Client"[0];
  }
}
