// The Emby authorization header: built and rewritten by internal/identity/spoof.go, parsed by
// internal/proxy/login_compat.go.
module AuthHeader {
  import opened Text

  datatype Profile = Profile(client: string, version: string, deviceName: string, deviceID: string)

  // The three identities the program can take.
  const INFUSE := Profile("Infuse", "7.8.1", "iPhone", "fusionride-infuse")
  const WEB := Profile("Emby Web", "4.9.0.42", "Chrome", "fusionride-web")
  const CLIENT := Profile("Emby Theater", "4.7.0", "Windows", "fusionride-client")

  type Fields = map<string, string>

  // ---------- parsing ----------

  // strings.Trim(s, `"`)
  function TrimQuotes(s: string): string
    decreases |s|
  {
    if s != [] && s[0] == '"' then TrimQuotes(s[1..])
    else if s != [] && s[|s| - 1] == '"' then TrimQuotes(s[..|s| - 1])
    else s
  }

  // The first place of a character, |s| if there is none.
  function IndexByte(s: string, c: char): (i: nat)
    ensures i <= |s| && (i < |s| ==> s[i] == c) && forall j | 0 <= j < i :: s[j] != c
  {
    if s == [] || s[0] == c then 0 else 1 + IndexByte(s[1..], c)
  }

  // What follows the scheme.
  function Parameters(raw: string): string
  {
    var trimmed := TrimSpace(raw);
    var i := IndexByte(trimmed, ' ');
    if i < |trimmed| then TrimSpace(trimmed[i + 1..]) else trimmed
  }

  function ParsePart(result: Fields, part: string): Fields
  {
    ParseTrimmed(result, TrimSpace(part))
  }

  function ParseTrimmed(result: Fields, p: string): Fields
  {
    var i := IndexByte(p, '=');
    if p == "" || i == |p| then result
    else
      var key, value := TrimSpace(p[..i]), TrimQuotes(TrimSpace(p[i + 1..]));
      if key != "" then result[key := value] else result
  }

  function ParseParts(result: Fields, parts: seq<string>): Fields
    decreases |parts|
  {
    if parts == [] then result else ParseParts(ParsePart(result, parts[0]), parts[1..])
  }

  function Parse(raw: string): Fields
  {
    if TrimSpace(raw) == "" then map[] else ParseParts(map[], Split(Parameters(raw), ','))
  }

  method ParseEmbyAuthorizationHeader(given: string) returns (result: Fields)
    ensures result == Parse(given)
  {
    result := map[];
    var raw := TrimSpace(given);
    if raw == "" {
      return;
    }
    var idx := IndexByte(raw, ' ');
    if idx < |raw| {
      raw := TrimSpace(raw[idx + 1..]);
    }
    var parts := Split(raw, ',');
    for i := 0 to |parts|
      invariant ParseParts(result, parts[i..]) == ParseParts(map[], parts)
    {
      ghost var before := result;
      var part := TrimSpace(parts[i]);
      assert parts[i..][0] == parts[i] && parts[i..][1..] == parts[i + 1..];
      if part != "" {
        var cut := IndexByte(part, '=');
        if cut < |part| {
          var key := TrimSpace(part[..cut]);
          var value := TrimQuotes(TrimSpace(part[cut + 1..]));
          if key != "" {
            result := result[key := value];
          }
        }
      }
      assert result == ParsePart(before, parts[i]);
    }
  }

  // ---------- building and rewriting ----------

  function Field(key: string, value: string): string
  {
    key + "=\"" + value + "\""
  }

  function BuildAuthorizationHeader(profile: Profile): string
  {
    Join(["MediaBrowser " + Field("Client", profile.client), Field("Device", profile.deviceName),
          Field("DeviceId", profile.deviceID), Field("Version", profile.version)], ", ")
  }

  // The regular expression Key="[^"]*" matches at the start of s.
  predicate Matches(s: string, key: string)
  {
    key + "=\"" <= s && '"' in s[|key| + 2..]
  }

  // What follows the match.
  function AfterMatch(s: string, key: string): (rest: string)
    requires Matches(s, key)
    ensures |rest| < |s|
  {
    var tail := s[|key| + 2..];
    tail[IndexByte(tail, '"') + 1..]
  }

  // MatchString
  predicate MatchesSomewhere(s: string, key: string)
  {
    s != [] && (Matches(s, key) || MatchesSomewhere(s[1..], key))
  }

  // ReplaceAllString, for a replacement without the dollar signs it would expand.
  function ReplaceAll(s: string, key: string, replacement: string): string
    decreases |s|
  {
    if s == [] then []
    else if Matches(s, key) then replacement + ReplaceAll(AfterMatch(s, key), key, replacement)
    else [s[0]] + ReplaceAll(s[1..], key, replacement)
  }

  function ReplaceOrAppend(input: string, key: string, replacement: string): string
  {
    if MatchesSomewhere(input, key) then ReplaceAll(input, key, replacement)
    else if TrimSpace(input) == "" then replacement
    else input + ", " + replacement
  }

  method RewriteAuthorization(profile: Profile, given: string) returns (value: string)
    ensures value == Rewritten(profile, given)
  {
    value := given;
    value := ReplaceOrAppend(value, "Client", Field("Client", profile.client));
    value := ReplaceOrAppend(value, "Device", Field("Device", profile.deviceName));
    value := ReplaceOrAppend(value, "DeviceId", Field("DeviceId", profile.deviceID));
    value := ReplaceOrAppend(value, "Version", Field("Version", profile.version));
  }

  function Rewritten(profile: Profile, given: string): string
  {
    var v1 := ReplaceOrAppend(given, "Client", Field("Client", profile.client));
    var v2 := ReplaceOrAppend(v1, "Device", Field("Device", profile.deviceName));
    var v3 := ReplaceOrAppend(v2, "DeviceId", Field("DeviceId", profile.deviceID));
    ReplaceOrAppend(v3, "Version", Field("Version", profile.version))
  }
}
