/** The free-text commands an authenticated operator can send when no login step and
    no operation is pending:

      ssh:<host>:<user>[:<command>[:<description>]]      add an SSH host
      api:<type>:<host>:<key>[:<endpoint>[:<description>]] add an API host
      api|<type>|<host>|<key>[|<endpoint>[|<description>]] the same, split at '|'
      <host>:<user>                                       remove an SSH host
      <host>                                              remove an API host

    The text has already been stripped of surrounding white space. The connection
    test and the plugin check that follow the classification depend on the outside
    world and are made by the controller. */
module Commands {
  import opened Text

  datatype Command =
    | AddShell(host: string, user: string, description: string)
    | ShellFormatError
    | AddApi(apiType: string, host: string, apiKey: string, apiEndpoint: string, description: string)
    | ApiFormatError
    | RemoveShell(host: string, user: string)
    | RemoveApi(host: string)
    | NoCommand

  predicate IsShellText(text: string) {
    StartsWith(text, "ssh:")
  }

  predicate IsApiText(text: string) {
    StartsWith(text, "api:") || StartsWith(text, "api|")
  }

  /** An "ssh:" command: at least three ':'-fields; the fourth field (a command,
      no longer used) is the description when there is no fifth. */
  function ShellCommand(text: string): (c: Command)
    ensures c.AddShell? || c.ShellFormatError?
  {
    var parts := SplitN(text, ':', 5);
    if |parts| < 3 then ShellFormatError
    else
      var description := if |parts| > 4 then parts[4] else if |parts| > 3 then parts[3] else "";
      AddShell(parts[1], parts[2], description)
  }

  /** The field separator of an "api" command. */
  function ApiDelimiter(text: string): char {
    if StartsWith(text, "api:") then ':' else '|'
  }

  /** An "api:" or "api|" command: at least four fields, each stripped. */
  function ApiCommand(text: string): (c: Command)
    ensures c.AddApi? || c.ApiFormatError?
  {
    var parts := SplitN(text, ApiDelimiter(text), 6);
    if |parts| < 4 then ApiFormatError
    else
      var endpoint := if |parts| > 4 then parts[4] else "";
      var description := if |parts| > 5 then parts[5] else "";
      AddApi(Strip(parts[1]), Strip(parts[2]), Strip(parts[3]), Strip(endpoint), Strip(description))
  }

  /** Every field of an accepted "api" command is trimmed, so stray white space around
      a field can never reach the connection test or the registry. */
  lemma ApiFieldsTrimmed(text: string)
    requires ApiCommand(text).AddApi?
    ensures var c := ApiCommand(text);
            Trimmed(c.apiType) && Trimmed(c.host) && Trimmed(c.apiKey)
            && Trimmed(c.apiEndpoint) && Trimmed(c.description)
  {
    var parts := SplitN(text, ApiDelimiter(text), 6);
    StripIsTrimmed(parts[1]);
    StripIsTrimmed(parts[2]);
    StripIsTrimmed(parts[3]);
    StripIsTrimmed(if |parts| > 4 then parts[4] else "");
    StripIsTrimmed(if |parts| > 5 then parts[5] else "");
  }

  /** The classification of a message, in the order the handler tries the forms. */
  function Classify(text: string): (c: Command)
    ensures (c.AddShell? || c.ShellFormatError?) <==> IsShellText(text)
    ensures (c.AddApi? || c.ApiFormatError?) <==> !IsShellText(text) && IsApiText(text)
    ensures c.RemoveShell? ==> ':' !in c.host && ':' !in c.user && text == c.host + ":" + c.user
    ensures c.RemoveApi? <==> !IsShellText(text) && !IsApiText(text) && ':' !in text && |text| > 3
    ensures c.RemoveApi? ==> c.host == text
  {
    if IsShellText(text) then ShellCommand(text)
    else if IsApiText(text) then ApiCommand(text)
    else if ':' in text then
      var parts := Split(text, ':');
      SplitJoin(text, ':');
      SplitParts(text, ':');
      if |parts| == 2 then
        assert Join(parts, ':') == parts[0] + [':'] + parts[1];
        RemoveShell(parts[0], parts[1])
      else NoCommand
    else if |text| > 3 then RemoveApi(text)
    else NoCommand
  }

  // ---------------------------------------------------------------------------
  // Round trips: the command forms the bot's prompts describe

  lemma Join2(a: string, b: string, c: char)
    ensures Join([a, b], c) == a + [c] + b
  {
    assert [a, b] == [a] + [b];
    JoinCons(a, [b], c);
  }

  lemma Join3(a: string, b: string, d: string, c: char)
    ensures Join([a, b, d], c) == a + [c] + b + [c] + d
  {
    Join2(b, d, c);
    assert [a, b, d] == [a] + [b, d];
    JoinCons(a, [b, d], c);
  }

  lemma Join4(a: string, b: string, d: string, e: string, c: char)
    ensures Join([a, b, d, e], c) == a + [c] + b + [c] + d + [c] + e
  {
    Join3(b, d, e, c);
    assert [a, b, d, e] == [a] + [b, d, e];
    JoinCons(a, [b, d, e], c);
  }

  lemma Join5(a: string, b: string, d: string, e: string, f: string, c: char)
    ensures Join([a, b, d, e, f], c) == a + [c] + b + [c] + d + [c] + e + [c] + f
  {
    Join4(b, d, e, f, c);
    assert [a, b, d, e, f] == [a] + [b, d, e, f];
    JoinCons(a, [b, d, e, f], c);
  }

  lemma Join6(a: string, b: string, d: string, e: string, f: string, g: string, c: char)
    ensures Join([a, b, d, e, f, g], c) == a + [c] + b + [c] + d + [c] + e + [c] + f + [c] + g
  {
    Join5(b, d, e, f, g, c);
    assert [a, b, d, e, f, g] == [a] + [b, d, e, f, g];
    JoinCons(a, [b, d, e, f, g], c);
  }

  /** "ssh:host:user::description" adds that host with that description. */
  lemma AddShellRoundTrip(host: string, user: string, description: string)
    requires ':' !in host && ':' !in user && ':' !in description
    ensures Classify("ssh:" + host + ":" + user + "::" + description) == AddShell(host, user, description)
  {
    var text := "ssh:" + host + ":" + user + "::" + description;
    var parts := ["ssh", host, user, "", description];
    Join5("ssh", host, user, "", description, ':');
    assert text == Join(parts, ':');
    JoinSplitN(parts, ':', 5);
    assert StartsWith(text, "ssh:");
  }

  /** "ssh:host:user" adds that host with no description. */
  lemma AddShellShortRoundTrip(host: string, user: string)
    requires ':' !in host && ':' !in user
    ensures Classify("ssh:" + host + ":" + user) == AddShell(host, user, "")
  {
    var text := "ssh:" + host + ":" + user;
    var parts := ["ssh", host, user];
    Join3("ssh", host, user, ':');
    assert text == Join(parts, ':');
    JoinSplitN(parts, ':', 5);
    assert StartsWith(text, "ssh:");
  }

  /** "ssh:host:user:description" also adds the host: with four fields the fourth is
      the description. */
  lemma AddShellFourFieldRoundTrip(host: string, user: string, description: string)
    requires ':' !in host && ':' !in user && ':' !in description
    ensures Classify("ssh:" + host + ":" + user + ":" + description) == AddShell(host, user, description)
  {
    var text := "ssh:" + host + ":" + user + ":" + description;
    var parts := ["ssh", host, user, description];
    Join4("ssh", host, user, description, ':');
    assert text == Join(parts, ':');
    JoinSplitN(parts, ':', 5);
    assert StartsWith(text, "ssh:");
  }

  /** An "ssh:" text adds a host exactly when it has at least three fields, that is at
      least two colons; with fewer it is a format error. */
  lemma ShellAddIff(text: string)
    requires IsShellText(text)
    ensures Classify(text).AddShell? <==> Count(text, ':') >= 2
    ensures Classify(text) == ShellFormatError <==> Count(text, ':') < 2
  {
    SplitNLength(text, ':', 5);
    assert Classify(text) == ShellCommand(text);
  }

  /** An "api" text adds a host exactly when it has at least four fields, that is at
      least three separators; with fewer it is a format error. */
  lemma ApiAddIff(text: string)
    requires IsApiText(text)
    ensures Classify(text).AddApi? <==> Count(text, ApiDelimiter(text)) >= 3
    ensures Classify(text) == ApiFormatError <==> Count(text, ApiDelimiter(text)) < 3
  {
    assert text[0] == 'a';
    assert !IsShellText(text);
    SplitNLength(text, ApiDelimiter(text), 6);
    assert Classify(text) == ApiCommand(text);
  }

  /** "api|type|host", one field short of a key, is a format error. */
  lemma ApiTooShort(apiType: string, host: string)
    requires '|' !in apiType && '|' !in host
    ensures Classify("api|" + apiType + "|" + host) == ApiFormatError
  {
    var text := "api|" + apiType + "|" + host;
    var parts := ["api", apiType, host];
    Join3("api", apiType, host, '|');
    assert text == Join(parts, '|');
    JoinSplitN(parts, '|', 6);
    assert text[0] == 'a' && text[3] == '|' && text[..4] == "api|";
    assert Classify(text) == ApiCommand(text);
  }

  /** Fewer than three fields is a format error: "ssh:host" adds nothing. */
  lemma ShellTooShort(host: string)
    requires ':' !in host
    ensures Classify("ssh:" + host) == ShellFormatError
  {
    var text := "ssh:" + host;
    Join2("ssh", host, ':');
    assert text == Join(["ssh", host], ':');
    JoinSplitN(["ssh", host], ':', 5);
    assert StartsWith(text, "ssh:");
  }

  /** The six-field "api:" form gives back its fields. */
  lemma AddApiRoundTrip(apiType: string, host: string, apiKey: string, endpoint: string, description: string)
    requires ':' !in apiType && ':' !in host && ':' !in apiKey && ':' !in endpoint && ':' !in description
    requires Trimmed(apiType) && Trimmed(host) && Trimmed(apiKey) && Trimmed(endpoint) && Trimmed(description)
    ensures Classify("api:" + apiType + ":" + host + ":" + apiKey + ":" + endpoint + ":" + description)
         == AddApi(apiType, host, apiKey, endpoint, description)
  {
    var text := "api:" + apiType + ":" + host + ":" + apiKey + ":" + endpoint + ":" + description;
    ApiColonParts(apiType, host, apiKey, endpoint, description);
    ApiColonCommand(apiType, host, apiKey, endpoint, description);
    ClassifyTrimmedApi(text, apiType, host, apiKey, endpoint, description);
  }

  /** An "api" text whose fields are already trimmed is classified as exactly those fields. */
  lemma ClassifyTrimmedApi(text: string, apiType: string, host: string, apiKey: string, endpoint: string, description: string)
    requires !IsShellText(text) && IsApiText(text)
    requires ApiCommand(text) == AddApi(Strip(apiType), Strip(host), Strip(apiKey), Strip(endpoint), Strip(description))
    requires Trimmed(apiType) && Trimmed(host) && Trimmed(apiKey) && Trimmed(endpoint) && Trimmed(description)
    ensures Classify(text) == AddApi(apiType, host, apiKey, endpoint, description)
  {
    TrimmedFields(apiType, host, apiKey, endpoint, description);
  }

  lemma TrimmedFields(a: string, b: string, c: string, d: string, e: string)
    requires Trimmed(a) && Trimmed(b) && Trimmed(c) && Trimmed(d) && Trimmed(e)
    ensures Strip(a) == a && Strip(b) == b && Strip(c) == c && Strip(d) == d && Strip(e) == e
  {
    StripUnchanged(a);
    StripUnchanged(b);
    StripUnchanged(c);
    StripUnchanged(d);
    StripUnchanged(e);
  }

  lemma ApiColonCommand(apiType: string, host: string, apiKey: string, endpoint: string, description: string)
    requires ':' !in apiType && ':' !in host && ':' !in apiKey && ':' !in endpoint && ':' !in description
    ensures ApiCommand("api:" + apiType + ":" + host + ":" + apiKey + ":" + endpoint + ":" + description)
         == AddApi(Strip(apiType), Strip(host), Strip(apiKey), Strip(endpoint), Strip(description))
  {
    ApiColonParts(apiType, host, apiKey, endpoint, description);
  }

  lemma ApiColonParts(apiType: string, host: string, apiKey: string, endpoint: string, description: string)
    requires ':' !in apiType && ':' !in host && ':' !in apiKey && ':' !in endpoint && ':' !in description
    ensures var text := "api:" + apiType + ":" + host + ":" + apiKey + ":" + endpoint + ":" + description;
            !IsShellText(text) && StartsWith(text, "api:")
            && SplitN(text, ':', 6) == ["api", apiType, host, apiKey, endpoint, description]
  {
    var text := "api:" + apiType + ":" + host + ":" + apiKey + ":" + endpoint + ":" + description;
    var parts := ["api", apiType, host, apiKey, endpoint, description];
    Join6("api", apiType, host, apiKey, endpoint, description, ':');
    assert text == Join(parts, ':');
    JoinSplitN(parts, ':', 6);
    assert text[0] == 'a' && text[..4] == "api:";
  }

  /** With the "api|" form a field may hold a colon, such as an endpoint URL or a host
      with a port: "api|type|10.0.0.1:8006|key" keeps the host whole. */
  lemma AddApiPipeRoundTrip(apiType: string, host: string, apiKey: string)
    requires '|' !in apiType && '|' !in host && '|' !in apiKey
    requires Trimmed(apiType) && Trimmed(host) && Trimmed(apiKey)
    ensures Classify("api|" + apiType + "|" + host + "|" + apiKey) == AddApi(apiType, host, apiKey, "", "")
  {
    var text := "api|" + apiType + "|" + host + "|" + apiKey;
    ApiPipeParts(apiType, host, apiKey);
    ApiPipeCommand(apiType, host, apiKey);
    ClassifyTrimmedApi(text, apiType, host, apiKey, "", "");
  }

  lemma ApiPipeCommand(apiType: string, host: string, apiKey: string)
    requires '|' !in apiType && '|' !in host && '|' !in apiKey
    ensures ApiCommand("api|" + apiType + "|" + host + "|" + apiKey)
         == AddApi(Strip(apiType), Strip(host), Strip(apiKey), Strip(""), Strip(""))
  {
    ApiPipeParts(apiType, host, apiKey);
  }

  lemma ApiPipeParts(apiType: string, host: string, apiKey: string)
    requires '|' !in apiType && '|' !in host && '|' !in apiKey
    ensures var text := "api|" + apiType + "|" + host + "|" + apiKey;
            !IsShellText(text) && !StartsWith(text, "api:") && StartsWith(text, "api|")
            && SplitN(text, '|', 6) == ["api", apiType, host, apiKey]
  {
    var text := "api|" + apiType + "|" + host + "|" + apiKey;
    var parts := ["api", apiType, host, apiKey];
    Join4("api", apiType, host, apiKey, '|');
    assert text == Join(parts, '|');
    JoinSplitN(parts, '|', 6);
    assert text[0] == 'a' && text[3] == '|' && text[..4] == "api|";
  }

  /** "host:user" removes that SSH host, unless it is spelled like another command. */
  lemma RemoveShellRoundTrip(host: string, user: string)
    requires ':' !in host && ':' !in user
    requires host != "ssh" && host != "api" && !StartsWith(host, "api|")
    ensures Classify(host + ":" + user) == RemoveShell(host, user)
  {
    var text := host + ":" + user;
    assert text == host + [':'] + user;
    SplitField(host, ':', user);
    SplitNoSeparator(user, ':', 0);
    assert text[|host|] == ':';
    NotPrefixed(host, user);
  }

  /** Text whose first colon comes after a host name that is not "ssh", "api" or
      "api|..." carries none of the add prefixes. */
  lemma NotPrefixed(host: string, user: string)
    requires ':' !in host
    requires host != "ssh" && host != "api" && !StartsWith(host, "api|")
    ensures !IsShellText(host + ":" + user) && !IsApiText(host + ":" + user)
  {
    var text := host + ":" + user;
    if |text| >= 4 {
      if |host| < 4 {
        assert text[..4][|host|] == ':';
        if |host| == 3 {
          assert text[..4][..3] == host;
        }
      } else {
        assert text[..4] == host[..4];
        assert host[3] != ':';
      }
    }
  }

  /** A bare host name longer than three characters removes that API host. */
  lemma RemoveApiRoundTrip(host: string)
    requires ':' !in host && |host| > 3 && !StartsWith(host, "api|")
    ensures Classify(host) == RemoveApi(host)
  {
    assert host[3] != ':';
  }

  /** Short colon-free text and text with more than one colon (outside the add forms)
      are not commands. */
  lemma NotACommand(text: string)
    requires !IsShellText(text) && !IsApiText(text)
    requires (':' !in text && |text| <= 3) || |Split(text, ':')| > 2
    ensures Classify(text) == NoCommand
  {
    if ':' !in text {
      SplitNoSeparator(text, ':', 0);
    }
  }
}
