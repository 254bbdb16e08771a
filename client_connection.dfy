/** The client's `ConnectionData`: the WebSocket URL it connects to is
    `ws://` and the server address, `/spectator` for a spectator, then `?`
    and the `&`-joined parameters when there are any. */
module ClientConnection {
  import opened Wrappers

  /** `p` begins `s`. */
  predicate PrefixOf(p: string, s: string) {
    |p| <= |s| && s[..|p|] == p
  }

  /** `p` ends `s`. */
  predicate SuffixOf(p: string, s: string) {
    |p| <= |s| && s[|s| - |p|..] == p
  }

  /** The first position of `c` in `s`. */
  function IndexOf(s: string, c: char): (r: Option<nat>)
    ensures r.Some? ==> r.value < |s| && s[r.value] == c && c !in s[..r.value]
    ensures r.None? <==> c !in s
  {
    if s == [] then None
    else if s[0] == c then Some(0)
    else
      match IndexOf(s[1..], c)
      case None => None
      case Some(k) => assert s[1..][..k] == s[1..k + 1]; Some(k + 1)
  }

  /** `string.Join(sep, parts)`: the parts with `sep` between neighbours. */
  function Join(parts: seq<string>, sep: char): string
  {
    if parts == [] then ""
    else if |parts| == 1 then parts[0]
    else parts[0] + [sep] + Join(parts[1..], sep)
  }

  /** Cuts `s` at every `sep`; the partner of `Join`. */
  function Split(s: string, sep: char): (r: seq<string>)
    ensures |r| >= 1
  {
    if s == [] then [""]
    else if s[0] == sep then [""] + Split(s[1..], sep)
    else
      var rest := Split(s[1..], sep);
      [[s[0]] + rest[0]] + rest[1..]
  }

  /** A part without the separator is cut off whole. */
  lemma {:induction false} SplitPart(p: string, t: string, sep: char)
    requires sep !in p
    ensures Split(p, sep) == [p]
    ensures Split(p + [sep] + t, sep) == [p] + Split(t, sep)
  {
    if p != [] {
      assert p[1..] + [sep] + t == (p + [sep] + t)[1..];
      SplitPart(p[1..], t, sep);
      assert [p[0]] + p[1..] == p;
    } else {
      assert p + [sep] + t == [sep] + t;
    }
  }

  /** `Split` undoes `Join` when no part holds the separator and there is
      at least one part. */
  lemma {:induction false} SplitJoin(parts: seq<string>, sep: char)
    requires |parts| > 0 && forall k :: 0 <= k < |parts| ==> sep !in parts[k]
    ensures Split(Join(parts, sep), sep) == parts
  {
    if |parts| == 1 {
      SplitPart(parts[0], "", sep);
    } else {
      SplitJoin(parts[1..], sep);
      SplitPart(parts[0], Join(parts[1..], sep), sep);
      assert [parts[0]] + parts[1..] == parts;
    }
  }

  /** What a server URL says: the address, whether it is a spectator's, and
      its parameters. */
  datatype UrlParts = UrlParts(address: string, spectator: bool, parameters: seq<string>)

  /** Reads a URL of the form `GetServerUrl` builds: `ws://`, then the
      text up to the first `?`, which is the address less a trailing
      `/spectator`; the text after it is cut at every `&`. */
  function ParseServerUrl(url: string): (r: Option<UrlParts>)
    ensures r.Some? <==> PrefixOf("ws://", url)
  {
    if !PrefixOf("ws://", url) then None else Some(ParseRest(url[5..]))
  }

  /** The text after `ws://`, read up to the first `?` and after it. */
  function ParseRest(rest: string): UrlParts {
    match IndexOf(rest, '?')
    case None => PathParts(rest, [])
    case Some(q) => PathParts(rest[..q], Split(rest[q + 1..], '&'))
  }

  /** The address and spectator flag a path stands for. */
  function PathParts(path: string, parameters: seq<string>): UrlParts {
    if SuffixOf("/spectator", path) then UrlParts(path[..|path| - 10], true, parameters)
    else UrlParts(path, false, parameters)
  }

  const PlayerType := "playerType=human"
  const StringEnums := "enumSerializationFormat=string"
  const QuickJoin := "quickJoin=true"

  /** The fixed parameters are told apart by their first letters, none
      looks like a join code and none holds an `&`. */
  lemma FixedParameters()
    ensures PlayerType[0] == 'p' && StringEnums[0] == 'e' && QuickJoin[0] == 'q'
    ensures !PrefixOf("joinCode=", PlayerType) && !PrefixOf("joinCode=", StringEnums) && !PrefixOf("joinCode=", QuickJoin)
    ensures '&' !in PlayerType && '&' !in StringEnums && '&' !in QuickJoin
  {
  }

  /** A client connection: the server's `address:port`, the join code if
      any, whether the client only watches, and the `QuickJoin` flag, which
      exists in debug builds only (false in release builds). */
  datatype ConnectionData = ConnectionData(serverAddress: string, joinCode: Option<string>, isSpectator: bool,
                                           quickJoin: bool)
  {
    /** `GetUrlParameters`, in the order they are appended: the join code
        when there is one, `playerType=human` for a player,
        `enumSerializationFormat=string` when enums are serialised as
        strings (`stringEnums` stands for the process-wide serialisation
        setting), and `quickJoin=true` when quick join is on. */
    function GetUrlParameters(stringEnums: bool): (r: seq<string>)
      ensures |r| == (if joinCode.Some? then 1 else 0) + (if isSpectator then 0 else 1) +
                     (if stringEnums then 1 else 0) + (if quickJoin then 1 else 0)
    {
      var withCode := CodeParameter();
      var withPlayer := if !isSpectator then withCode + [PlayerType] else withCode;
      var withEnums := if stringEnums then withPlayer + [StringEnums] else withPlayer;
      if quickJoin then withEnums + [QuickJoin] else withEnums
    }

    /** The join code parameter, when there is a join code. */
    function CodeParameter(): seq<string> {
      if joinCode.Some? then ["joinCode=" + joinCode.value] else []
    }

    /** The parameters after the join code: each is one fixed text. */
    function FlagParameters(stringEnums: bool): seq<string> {
      (if !isSpectator then [PlayerType] else []) + (if stringEnums then [StringEnums] else []) +
      (if quickJoin then [QuickJoin] else [])
    }

    /** The parameters are the join code's, then the flags. */
    lemma {:induction false} CodeThenFlags(stringEnums: bool)
      ensures GetUrlParameters(stringEnums) == CodeParameter() + FlagParameters(stringEnums)
      ensures forall k :: 0 <= k < |FlagParameters(stringEnums)| ==>
                var p := FlagParameters(stringEnums)[k];
                !PrefixOf("joinCode=", p) && '&' !in p && (p == PlayerType || p == StringEnums || p == QuickJoin)
    {
      FixedParameters();
    }

    /** A join code parameter is present exactly when there is a join code,
        and comes first. */
    lemma {:induction false} JoinCodeParameter(stringEnums: bool)
      ensures var r := GetUrlParameters(stringEnums);
        joinCode.Some? <==> exists k :: 0 <= k < |r| && PrefixOf("joinCode=", r[k])
      ensures joinCode.Some? ==> GetUrlParameters(stringEnums)[0] == "joinCode=" + joinCode.value
    {
      CodeThenFlags(stringEnums);
      var r := GetUrlParameters(stringEnums);
      if joinCode.Some? {
        assert ("joinCode=" + joinCode.value)[..9] == "joinCode=";
        assert PrefixOf("joinCode=", r[0]);
      } else {
        assert r == FlagParameters(stringEnums);
      }
    }

    /** `playerType=human` is present exactly for a player,
        `enumSerializationFormat=string` exactly with string enums, and
        `quickJoin=true` exactly with quick join. */
    lemma {:induction false} FlagParametersPresent(stringEnums: bool)
      ensures PlayerType in GetUrlParameters(stringEnums) <==> !isSpectator
      ensures StringEnums in GetUrlParameters(stringEnums) <==> stringEnums
      ensures QuickJoin in GetUrlParameters(stringEnums) <==> quickJoin
    {
      CodeThenFlags(stringEnums);
      FixedParameters();
      var flags := FlagParameters(stringEnums);
      assert PlayerType in flags <==> !isSpectator;
      assert StringEnums in flags <==> stringEnums;
      assert QuickJoin in flags <==> quickJoin;
      if joinCode.Some? {
        var code := "joinCode=" + joinCode.value;
        assert code[0] == 'j';
        assert code != PlayerType && code != StringEnums && code != QuickJoin;
      }
    }

    /** No parameter holds an `&` unless the join code does. */
    lemma {:induction false} ParametersWithoutAmpersand(stringEnums: bool)
      requires joinCode.Some? ==> '&' !in joinCode.value
      ensures forall k :: 0 <= k < |GetUrlParameters(stringEnums)| ==> '&' !in GetUrlParameters(stringEnums)[k]
    {
      CodeThenFlags(stringEnums);
      FixedParameters();
      if joinCode.Some? {
        assert '&' !in "joinCode=";
        assert forall i :: 0 <= i < |joinCode.value| ==> ("joinCode=" + joinCode.value)[9 + i] == joinCode.value[i];
      }
    }

    /** `GetServerUrl`: the URL begins with `ws://` and the address; what
        follows starts with `/spectator` exactly for a spectator, and holds
        a `?` exactly when there are parameters. When the address holds no
        `/` or `?` and the join code no `&`, the URL reads back as the
        address, the spectator flag and the parameters. */
    method GetServerUrl(stringEnums: bool) returns (url: string)
      ensures PrefixOf("ws://" + serverAddress, url)
      ensures isSpectator <==> PrefixOf("/spectator", url[5 + |serverAddress|..])
      ensures '?' in url[5 + |serverAddress|..] <==> GetUrlParameters(stringEnums) != []
      ensures '?' !in serverAddress && '/' !in serverAddress && (joinCode.Some? ==> '&' !in joinCode.value) ==>
              ParseServerUrl(url) == Some(UrlParts(serverAddress, isSpectator, GetUrlParameters(stringEnums)))
    {
      url := "ws://" + serverAddress;
      if isSpectator {
        url := url + "/spectator";
      }
      var parameters := GetUrlParameters(stringEnums);
      if joinCode.Some? ==> '&' !in joinCode.value {
        ParametersWithoutAmpersand(stringEnums);
      }
      if |parameters| > 0 {
        url := url + "?" + Join(parameters, '&');
      }
      var suffix := if isSpectator then "/spectator" else "";
      UrlShape(serverAddress, suffix, parameters, url);
      if '?' !in serverAddress && '/' !in serverAddress && (joinCode.Some? ==> '&' !in joinCode.value) {
        UrlReadsBack(serverAddress, suffix, parameters, url);
      }
    }
  }

  /** The shape of a URL built from an address, the spectator suffix and
      the parameters: after `ws://` and the address comes `/spectator`
      exactly for a spectator, and a `?` exactly when there are
      parameters. */
  lemma {:induction false} UrlShape(address: string, suffix: string, parameters: seq<string>, url: string)
    requires suffix == "" || suffix == "/spectator"
    requires url == "ws://" + address + suffix + (if parameters == [] then "" else "?" + Join(parameters, '&'))
    ensures PrefixOf("ws://" + address, url)
    ensures suffix != "" <==> PrefixOf("/spectator", url[5 + |address|..])
    ensures '?' in url[5 + |address|..] <==> parameters != []
  {
    var query := if parameters == [] then "" else "?" + Join(parameters, '&');
    var tail := url[5 + |address|..];
    assert url == ("ws://" + address) + (suffix + query);
    assert tail == suffix + query;
    if suffix == "" && parameters != [] {
      assert tail[0] == '?';
    }
    if parameters != [] {
      assert tail[|suffix|] == '?';
    } else {
      assert tail == suffix;
      assert '?' !in "/spectator";
    }
  }

  /** A URL built from an address without `/` or `?`, the spectator suffix
      and parameters without `&` reads back as all three. */
  lemma {:induction false} UrlReadsBack(address: string, suffix: string, parameters: seq<string>, url: string)
    requires suffix == "" || suffix == "/spectator"
    requires url == "ws://" + address + suffix + (if parameters == [] then "" else "?" + Join(parameters, '&'))
    requires '?' !in address && '/' !in address && forall k :: 0 <= k < |parameters| ==> '&' !in parameters[k]
    ensures ParseServerUrl(url) == Some(UrlParts(address, suffix != "", parameters))
  {
    var path := address + suffix;
    assert '?' !in "/spectator";
    assert '?' !in path;
    PathReadsBack(address, suffix);
    assert PathParts(path, parameters) == UrlParts(address, suffix != "", parameters);
    if parameters == [] {
      assert url == "ws://" + path;
      assert url[5..] == path;
      assert IndexOf(path, '?').None?;
    } else {
      var rest := path + "?" + Join(parameters, '&');
      assert url == "ws://" + rest;
      assert url[5..] == rest;
      QueryReadsBack(path, parameters);
    }
  }

  /** The first `c` in `s` is at `i` when `s[i]` is one and none comes
      before. */
  lemma {:induction false} IndexOfAt(s: string, c: char, i: nat)
    requires i < |s| && s[i] == c && c !in s[..i]
    ensures IndexOf(s, c) == Some(i)
  {
    assert c in s;
  }

  /** A path without `?`, a `?` and the `&`-joined parameters read back
      as the path and the parameters. */
  lemma {:induction false} QueryReadsBack(path: string, parameters: seq<string>)
    requires '?' !in path && |parameters| > 0 && forall k :: 0 <= k < |parameters| ==> '&' !in parameters[k]
    ensures ParseRest(path + "?" + Join(parameters, '&')) == PathParts(path, parameters)
  {
    var rest := path + "?" + Join(parameters, '&');
    assert rest[..|path|] == path;
    IndexOfAt(rest, '?', |path|);
    assert rest[|path| + 1..] == Join(parameters, '&');
    SplitJoin(parameters, '&');
  }

  /** The address and the spectator suffix are told apart by the suffix
      test when the address holds no `/`. */
  lemma {:induction false} PathReadsBack(address: string, suffix: string)
    requires suffix == "" || suffix == "/spectator"
    requires '/' !in address
    ensures SuffixOf("/spectator", address + suffix) <==> suffix != ""
    ensures suffix != "" ==> (address + suffix)[..|address + suffix| - 10] == address
  {
    var path := address + suffix;
    if suffix == "" {
      assert path == address;
      assert |path| >= 10 ==> path[|path| - 10..][0] == path[|path| - 10] && path[|path| - 10] in address;
    } else {
      assert path[|path| - 10..] == "/spectator";
    }
  }
}
