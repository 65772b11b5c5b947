/**
 * The slipnet:// profile codec: the parser of config.go, and patchProfile and
 * generateProfileURI of tunnel.go.
 */
module Profile {
  import opened Options
  import opened GoStrings
  import opened Base64

  datatype Profile = Profile(
    version: string, tunnelType: string, name: string, domain: string, resolvers: string,
    authMode: bool, keepAlive: int, cc: string, port: int, host: string, gso: bool, publicKey: string,
    dnsTransport: string, dohURL: string,
    sshUsername: string, sshPassword: string, sshPort: int, sshHost: string, sshAuthType: string)
  {
    function DisplayTunnelType(): string {
      if tunnelType == "sayedns" || tunnelType == "sayedns_ssh" then "noizdns"
      else if tunnelType == "dnstt" || tunnelType == "dnstt_ssh" then "dnstt"
      else tunnelType
    }

    predicate IsSsh() {
      HasSuffix(tunnelType, "_ssh")
    }
  }

  datatype Error = BadScheme | BadBase64 | TooFewFields
  datatype Result<+T> = Ok(value: T) | Err(error: Error)

  const SCHEME := "slipnet://"

  // --- specification

  function FieldOr(fields: seq<string>, i: nat, default: string): string {
    if i < |fields| && fields[i] != "" then fields[i] else default
  }

  function PositiveOr(text: string, default: int): int {
    match Atoi(text)
    case Some(v) => if v > 0 then v else default
    case None => default
  }

  function ProfileOf(fields: seq<string>): Profile
    requires |fields| >= 12
  {
    Profile(fields[0], fields[1], fields[2], fields[3], fields[4],
            fields[5] == "1",
            match Atoi(fields[6]) case Some(v) => v case None => 0,
            fields[7],
            PositiveOr(fields[8], 1080),
            FieldOr(fields, 9, "127.0.0.1"),
            fields[10] == "1",
            fields[11],
            FieldOr(fields, 22, ""), FieldOr(fields, 21, ""),
            FieldOr(fields, 15, ""), FieldOr(fields, 16, ""),
            PositiveOr(FieldOr(fields, 17, ""), 22), FieldOr(fields, 19, "127.0.0.1"),
            FieldOr(fields, 23, ""))
  }

  /** The decoded text of a URI. */
  function Payload(uri: string): Result<string> {
    if !HasPrefix(uri, SCHEME) then Err(BadScheme)
    else match DecodeLenient(StripSpace(uri[|SCHEME|..]))
      case None => Err(BadBase64)
      case Some(text) => Ok(text)
  }

  function Parse(uri: string): Result<Profile> {
    match Payload(uri)
    case Err(e) => Err(e)
    case Ok(text) =>
      var fields := Split(text, '|');
      if |fields| < 12 then Err(TooFewFields) else Ok(ProfileOf(fields))
  }

  function UriOf(fields: seq<string>): string {
    SCHEME + Encode(Join(fields, '|'))
  }

  function PatchFields(fields: seq<string>, listenAddr: string): seq<string>
    requires |fields| >= 10
  {
    var stripped := fields[1 := TrimSuffix(fields[1], "_ssh")];
    match SplitHostPort(listenAddr)
    case None => stripped
    case Some((host, port)) =>
      var hosted := if host != "" then stripped[9 := host] else stripped;
      if port != "" then hosted[8 := port] else hosted
  }

  function Patch(uri: string, listenAddr: string): string {
    match Payload(uri)
    case Err(_) => uri
    case Ok(text) =>
      var fields := Split(text, '|');
      if |fields| < 10 then uri else UriOf(PatchFields(fields, listenAddr))
  }

  /** The part of TunnelConfig that generateProfileURI reads. */
  datatype Config = Config(tunnelType: string, domain: string, publicKey: string)

  function MappedType(tunnelType: string): string {
    if tunnelType == "noizdns" then "sayedns" else if tunnelType == "" then "dnstt" else tunnelType
  }

  function ListenHost(listenAddr: string): string {
    match SplitHostPort(listenAddr)
    case None => "0.0.0.0"
    case Some((host, _)) => if host != "" then host else "0.0.0.0"
  }

  function Blanks(n: nat): seq<string> {
    seq(n, _ => "")
  }

  function GeneratedFields(config: Config, listenAddr: string): seq<string> {
    ["16", MappedType(config.tunnelType), "auto", config.domain, "127.0.0.1:53:0", "0", "5000", "bbr", "1080",
     ListenHost(listenAddr), "0", config.publicKey] + Blanks(10) + ["udp"]
  }

  // --- the code

  method DecodeUri(uri: string) returns (r: Option<string>)
    requires HasPrefix(uri, SCHEME)
    ensures r == match Payload(uri) case Ok(text) => Some(text) case Err(_) => None
  {
    var encoded := StripSpace(uri[|SCHEME|..]);
    r := Decode(encoded);
    if r.None? {
      var padded := PadLoop(encoded);
      r := Decode(padded);
    }
  }

  lemma PayloadErrors(uri: string)
    ensures !HasPrefix(uri, SCHEME) <==> Payload(uri) == Err(BadScheme)
    ensures Payload(uri).Err? && HasPrefix(uri, SCHEME) ==> Payload(uri).error == BadBase64
  {}

  method ParseSlipNetURI(uri: string) returns (r: Result<Profile>)
    ensures r == Parse(uri)
  {
    hide Payload, Split, Atoi;
    PayloadErrors(uri);
    if !HasPrefix(uri, SCHEME) { return Err(BadScheme); }
    var decoded := DecodeUri(uri);
    if decoded.None? { return Err(BadBase64); }
    var fields := Split(decoded.value, '|');
    if |fields| < 12 { return Err(TooFewFields); }

    var p := FillProfile(fields);
    return Ok(p);
  }

  /** The field assignments of ParseSlipNetURI, defaults first. */
  method FillProfile(fields: seq<string>) returns (p: Profile)
    requires |fields| >= 12
    ensures p == ProfileOf(fields)
  {
    hide Atoi, FieldOr;
    var authMode, keepAlive, port, host, gso := false, 0, 1080, "127.0.0.1", false;
    if fields[5] == "1" { authMode := true; }
    var v := Atoi(fields[6]);
    if v.Some? { keepAlive := v.value; }
    v := Atoi(fields[8]);
    if v.Some? && v.value > 0 { port := v.value; }
    FieldOrAt(fields, 9, "127.0.0.1");
    if fields[9] != "" { host := fields[9]; }
    if fields[10] == "1" { gso := true; }
    var sshUsername, sshPassword, sshPort, sshHost := SshFields(fields);
    var dnsTransport, dohURL, sshAuthType := DnsFields(fields);
    p := Profile(fields[0], fields[1], fields[2], fields[3], fields[4], authMode, keepAlive, fields[7], port, host,
                 gso, fields[11], dnsTransport, dohURL, sshUsername, sshPassword, sshPort, sshHost, sshAuthType);
  }

  lemma FieldOrAt(fields: seq<string>, i: nat, default: string)
    requires i < |fields|
    ensures FieldOr(fields, i, default) == if fields[i] != "" then fields[i] else default
  {}

  method SshFields(fields: seq<string>)
    returns (sshUsername: string, sshPassword: string, sshPort: int, sshHost: string)
    ensures sshUsername == FieldOr(fields, 15, "") && sshPassword == FieldOr(fields, 16, "")
    ensures sshPort == PositiveOr(FieldOr(fields, 17, ""), 22) && sshHost == FieldOr(fields, 19, "127.0.0.1")
  {
    hide Atoi;
    AtoiEmpty();
    sshUsername, sshPassword, sshPort, sshHost := "", "", 22, "127.0.0.1";
    if |fields| > 15 && fields[15] != "" { sshUsername := fields[15]; }
    if |fields| > 16 && fields[16] != "" { sshPassword := fields[16]; }
    if |fields| > 17 && fields[17] != "" {
      var v := Atoi(fields[17]);
      if v.Some? && v.value > 0 { sshPort := v.value; }
    }
    if |fields| > 19 && fields[19] != "" { sshHost := fields[19]; }
  }

  method DnsFields(fields: seq<string>) returns (dnsTransport: string, dohURL: string, sshAuthType: string)
    ensures dnsTransport == FieldOr(fields, 22, "") && dohURL == FieldOr(fields, 21, "")
    ensures sshAuthType == FieldOr(fields, 23, "")
  {
    dnsTransport, dohURL, sshAuthType := "", "", "";
    if |fields| > 22 && fields[22] != "" { dnsTransport := fields[22]; }
    if |fields| > 21 && fields[21] != "" { dohURL := fields[21]; }
    if |fields| > 23 && fields[23] != "" { sshAuthType := fields[23]; }
  }

  lemma AtoiEmpty()
    ensures Atoi("") == None
  {}

  method PatchProfile(uri: string, listenAddr: string) returns (patched: string)
    ensures patched == Patch(uri, listenAddr)
  {
    if !HasPrefix(uri, SCHEME) { return uri; }
    var decoded := DecodeUri(uri);
    if decoded.None? { return uri; }
    var fields := Split(decoded.value, '|');
    if |fields| < 10 { return uri; }
    fields := fields[1 := TrimSuffix(fields[1], "_ssh")];
    if listenAddr != "" {
      var split := SplitHostPort(listenAddr);
      if split.Some? {
        var (host, port) := split.value;
        if host != "" { fields := fields[9 := host]; }
        if port != "" { fields := fields[8 := port]; }
      }
    }
    return SCHEME + Encode(Join(fields, '|'));
  }

  method GenerateProfileURI(config: Config, listenAddr: string) returns (uri: string)
    ensures uri == UriOf(GeneratedFields(config, listenAddr))
  {
    hide SplitHostPort, Encode, Join;
    NoAddress();
    var tunnelType := config.tunnelType;
    if tunnelType == "noizdns" {
      tunnelType := "sayedns";
    } else if tunnelType == "" {
      tunnelType := "dnstt";
    }
    var listenHost := "0.0.0.0";
    if listenAddr != "" {
      var split := SplitHostPort(listenAddr);
      if split.Some? && split.value.0 != "" { listenHost := split.value.0; }
    }
    var fields := Blanks(23);
    fields := fields[0 := "16"][1 := tunnelType][2 := "auto"][3 := config.domain];
    fields := fields[4 := "127.0.0.1:53:0"][5 := "0"][6 := "5000"][7 := "bbr"];
    fields := fields[8 := "1080"][9 := listenHost][10 := "0"][11 := config.publicKey][22 := "udp"];
    FieldsAssigned("16", tunnelType, "auto", config.domain, "127.0.0.1:53:0", "0", "5000", "bbr", "1080", listenHost,
                   "0", config.publicKey, "udp");
    return SCHEME + Encode(Join(fields, '|'));
  }

  lemma NoAddress()
    ensures SplitHostPort("") == None
  {}

  lemma FieldsAssigned(f0: string, f1: string, f2: string, f3: string, f4: string, f5: string, f6: string, f7: string,
                       f8: string, f9: string, f10: string, f11: string, f22: string)
    ensures Blanks(23)[0 := f0][1 := f1][2 := f2][3 := f3][4 := f4][5 := f5][6 := f6][7 := f7]
              [8 := f8][9 := f9][10 := f10][11 := f11][22 := f22]
         == [f0, f1, f2, f3, f4, f5, f6, f7, f8, f9, f10, f11] + Blanks(10) + [f22]
  {}

  // --- round trips

  ghost predicate ByteFields(fields: seq<string>) {
    forall i :: 0 <= i < |fields| ==> IsBytes(fields[i])
  }

  lemma PayloadOfEncoded(text: string)
    requires IsBytes(text)
    ensures Payload(SCHEME + Encode(text)) == Ok(text)
  {
    EncodeSolid(text);
    StripSolid(Encode(text));
    DecodeEncode(text);
    assert (SCHEME + Encode(text))[|SCHEME|..] == Encode(text);
  }

  /** What joining and encoding fields means to the parser and the patcher. */
  lemma UriKeepsFields(fields: seq<string>)
    requires |fields| > 0 && FreeOf(fields, '|') && ByteFields(fields)
    ensures Payload(UriOf(fields)).Ok? && Split(Payload(UriOf(fields)).value, '|') == fields
  {
    hide Payload, Join, Split, Encode;
    JoinBytes(fields, '|');
    PayloadOfEncoded(Join(fields, '|'));
    SplitJoin(fields, '|');
  }

  lemma PayloadBytes(uri: string)
    requires Payload(uri).Ok?
    ensures IsBytes(Payload(uri).value)
    ensures FreeOf(Split(Payload(uri).value, '|'), '|') && ByteFields(Split(Payload(uri).value, '|'))
  {
    var encoded := StripSpace(uri[|SCHEME|..]);
    if Decode(encoded).Some? { DecodeBytes(encoded); } else { DecodeBytes(Pad(encoded)); }
    SplitFree(Payload(uri).value, '|');
  }

  // --- what the parser makes of a profile, by position

  function At(fields: seq<string>, i: nat): string {
    if i < |fields| then fields[i] else ""
  }

  function NonEmpty(text: string, default: string): string {
    if text == "" then default else text
  }

  /** The number the text stands for if that is one and `valid`; otherwise the default. */
  ghost predicate Reads(n: int, text: string, valid: int -> bool, default: int) {
    if exists v :: Atoi(text) == Some(v) && valid(v) then Atoi(text) == Some(n) else n == default
  }

  const POSITIVE := (n: int) => n > 0
  const ANY := (n: int) => true

  /** Every field of the profile comes from its place in the list, or has its default when that is
      empty or missing; a list of fewer than twelve is refused. */
  lemma ParseReadsFields(fields: seq<string>)
    requires |fields| > 0 && FreeOf(fields, '|') && ByteFields(fields)
    ensures var r := Parse("slipnet://" + Encode(Join(fields, '|')));
            if |fields| < 12 then r == Err(TooFewFields)
            else
              && r.Ok?
              && var p := r.value;
                 && [p.version, p.tunnelType, p.name, p.domain, p.resolvers] == fields[..5]
                 && (p.authMode <==> fields[5] == "1") && Reads(p.keepAlive, fields[6], ANY, 0) && p.cc == fields[7]
                 && Reads(p.port, fields[8], POSITIVE, 1080) && p.host == NonEmpty(fields[9], "127.0.0.1")
                 && (p.gso <==> fields[10] == "1") && p.publicKey == fields[11]
                 && p.sshUsername == At(fields, 15) && p.sshPassword == At(fields, 16)
                 && Reads(p.sshPort, At(fields, 17), POSITIVE, 22)
                 && p.sshHost == NonEmpty(At(fields, 19), "127.0.0.1")
                 && p.dohURL == At(fields, 21) && p.dnsTransport == At(fields, 22) && p.sshAuthType == At(fields, 23)
  {
    UriKeepsFields(fields);
    if |fields| >= 12 { FieldsRead(fields); }
  }

  lemma FieldsRead(fields: seq<string>)
    requires |fields| >= 12
    ensures var p := ProfileOf(fields);
            && [p.version, p.tunnelType, p.name, p.domain, p.resolvers] == fields[..5]
            && (p.authMode <==> fields[5] == "1") && Reads(p.keepAlive, fields[6], ANY, 0) && p.cc == fields[7]
            && Reads(p.port, fields[8], POSITIVE, 1080) && p.host == NonEmpty(fields[9], "127.0.0.1")
            && (p.gso <==> fields[10] == "1") && p.publicKey == fields[11]
            && p.sshUsername == At(fields, 15) && p.sshPassword == At(fields, 16)
            && Reads(p.sshPort, At(fields, 17), POSITIVE, 22)
            && p.sshHost == NonEmpty(At(fields, 19), "127.0.0.1")
            && p.dohURL == At(fields, 21) && p.dnsTransport == At(fields, 22) && p.sshAuthType == At(fields, 23)
  {
    hide Atoi;
    AtoiEmpty();
  }

  function Flag(b: bool): string {
    if b then "1" else "0"
  }

  /** A profile in its 24 fields; the ones the parser does not read are `unused`. */
  function Fields(p: Profile, unused: string): seq<string> {
    [p.version, p.tunnelType, p.name, p.domain, p.resolvers, Flag(p.authMode), Decimal(p.keepAlive), p.cc,
     Decimal(p.port), p.host, Flag(p.gso), p.publicKey, unused, unused, unused, p.sshUsername, p.sshPassword,
     Decimal(p.sshPort), unused, p.sshHost, unused, p.dohURL, p.dnsTransport, p.sshAuthType]
  }

  /** A profile that can be written: no separator in its texts, hosts given, numbers in range. */
  ghost predicate Writable(p: Profile, unused: string) {
    && (forall text :: text in Texts(p) + [unused] ==> '|' !in text && IsBytes(text))
    && p.host != "" && p.sshHost != ""
    && 0 < p.port < 0x8000_0000_0000_0000 && 0 < p.sshPort < 0x8000_0000_0000_0000
    && -0x8000_0000_0000_0000 <= p.keepAlive < 0x8000_0000_0000_0000
  }

  function Texts(p: Profile): seq<string> {
    [p.version, p.tunnelType, p.name, p.domain, p.resolvers, p.cc, p.host, p.publicKey, p.sshUsername, p.sshPassword,
     p.sshHost, p.dohURL, p.dnsTransport, p.sshAuthType]
  }

  /** Round trip of every profile: what is written in 24 fields is what the parser reads. */
  lemma ParseInverts(p: Profile, unused: string)
    requires Writable(p, unused)
    ensures Parse("slipnet://" + Encode(Join(Fields(p, unused), '|'))) == Ok(p)
  {
    hide Parse, Encode, Join, Atoi, Decimal, FreeOf, ByteFields;
    FieldsFree(p, unused);
    ParseReadsFields(Fields(p, unused));
    AtoiReadsDecimal(p.keepAlive);
    AtoiReadsDecimal(p.port);
    AtoiReadsDecimal(p.sshPort);
    var fields, q := Fields(p, unused), Parse("slipnet://" + Encode(Join(Fields(p, unused), '|'))).value;
    ReadsNumber(q.keepAlive, fields[6], p.keepAlive, ANY, 0);
    ReadsNumber(q.port, fields[8], p.port, POSITIVE, 1080);
    ReadsNumber(q.sshPort, At(fields, 17), p.sshPort, POSITIVE, 22);
    var first := [q.version, q.tunnelType, q.name, q.domain, q.resolvers];
    assert first[0] == fields[0] && first[1] == fields[1] && first[2] == fields[2] && first[3] == fields[3]
           && first[4] == fields[4];
  }

  lemma ReadsNumber(n: int, text: string, m: int, valid: int -> bool, default: int)
    requires Atoi(text) == Some(m) && valid(m)
    ensures Reads(n, text, valid, default) ==> n == m
  {}

  lemma FieldsFree(p: Profile, unused: string)
    requires Writable(p, unused)
    ensures FreeOf(Fields(p, unused), '|') && ByteFields(Fields(p, unused))
  {
    hide IsBytes, Decimal;
    DecimalPlain(p.keepAlive);
    DecimalPlain(p.port);
    DecimalPlain(p.sshPort);
    FlagPlain();
    var texts := Texts(p) + [unused];
    forall i | 0 <= i < |Fields(p, unused)|
      ensures '|' !in Fields(p, unused)[i] && IsBytes(Fields(p, unused)[i])
    {
      assert Fields(p, unused)[i] in texts || Fields(p, unused)[i] in
        [Flag(p.authMode), Flag(p.gso), Decimal(p.keepAlive), Decimal(p.port), Decimal(p.sshPort)];
    }
  }

  lemma FlagPlain()
    ensures forall b: bool :: '|' !in Flag(b) && IsBytes(Flag(b))
  {}

  lemma {:induction false} DecimalPlain(n: int)
    ensures '|' !in Decimal(n) && IsBytes(Decimal(n))
    decreases if n < 0 then -n + 1 else n
  {
    if n < 0 { DecimalPlain(-n); } else if n >= 10 { DecimalPlain(n / 10); }
  }

  /** The other errors, and that the patcher hands such a URI back. */
  lemma ParseErrors(uri: string)
    ensures Parse(uri) == Err(BadScheme) <==> !("slipnet://" <= uri)
    ensures Parse(uri) == Err(BadBase64) <==> "slipnet://" <= uri && DecodeLenient(StripSpace(uri[10..])).None?
    ensures Parse(uri) == Err(BadScheme) || Parse(uri) == Err(BadBase64) ==>
              forall listenAddr :: Patch(uri, listenAddr) == uri
  {}

  /** What the patcher does to a URI, field by field; with fewer than ten it hands the URI back. */
  lemma PatchRewrites(fields: seq<string>, listenAddr: string) returns (patched: seq<string>)
    requires |fields| > 0 && FreeOf(fields, '|') && ByteFields(fields)
    ensures Patch("slipnet://" + Encode(Join(fields, '|')), listenAddr) == "slipnet://" + Encode(Join(patched, '|'))
    ensures |fields| < 10 ==> patched == fields
    ensures |fields| >= 10 ==>
              && |patched| == |fields|
              && (forall i :: 0 <= i < |fields| && i != 1 && i != 8 && i != 9 ==> patched[i] == fields[i])
              && (if HasSuffix(fields[1], "_ssh") then fields[1] == patched[1] + "_ssh" else patched[1] == fields[1])
              && match SplitHostPort(listenAddr)
                 case None => patched[8] == fields[8] && patched[9] == fields[9]
                 case Some((host, port)) =>
                   patched[8] == NonEmpty(port, fields[8]) && patched[9] == NonEmpty(host, fields[9])
  {
    hide SplitHostPort;
    UriKeepsFields(fields);
    patched := if |fields| < 10 then fields else PatchFields(fields, listenAddr);
    if |fields| >= 10 { TrimSsh(fields[1]); }
  }

  ghost predicate AddressFits(listenAddr: string) {
    IsBytes(listenAddr) &&
    match SplitHostPort(listenAddr)
    case None => true
    case Some((host, port)) => '|' !in host && '|' !in port
  }

  lemma PatchFieldsShape(fields: seq<string>, listenAddr: string)
    requires |fields| >= 10 && FreeOf(fields, '|') && ByteFields(fields) && AddressFits(listenAddr)
    ensures var patched := PatchFields(fields, listenAddr);
            |patched| == |fields| && FreeOf(patched, '|') && ByteFields(patched)
  {
    if SplitHostPort(listenAddr).Some? { SplitHostPortBytes(listenAddr); }
  }

  /** What the listen address does to a parsed profile. */
  function Rehosted(p: Profile, listenAddr: string): Profile {
    var stripped := p.(tunnelType := TrimSuffix(p.tunnelType, "_ssh"));
    match SplitHostPort(listenAddr)
    case None => stripped
    case Some((host, port)) =>
      stripped.(host := if host != "" then host else p.host,
                port := if port != "" then PositiveOr(port, 1080) else p.port)
  }

  /** Patching commutes with parsing, for every URI that parses and every listen address whose
      host and port are free of '|': the patched URI parses to the original profile with one
      `_ssh` suffix stripped and the address's host and port; every other field is kept. */
  lemma PatchCommutesWithParse(uri: string, listenAddr: string)
    requires Parse(uri).Ok? && AddressFits(listenAddr)
    ensures Parse(Patch(uri, listenAddr)) == Ok(Rehosted(Parse(uri).value, listenAddr))
  {
    hide Payload, Split, UriOf, PatchFields, ProfileOf, Rehosted, FreeOf, ByteFields;
    PayloadBytes(uri);
    var fields := Split(Payload(uri).value, '|');
    var patched := PatchFields(fields, listenAddr);
    PatchFieldsShape(fields, listenAddr);
    UriKeepsFields(patched);
    PatchFieldsRehosts(fields, listenAddr);
  }

  /** No field that the parser splits off contains the separator, whatever the URI. */
  lemma ParsedFieldsFree(uri: string)
    requires Parse(uri).Ok?
    ensures var p := Parse(uri).value;
            '|' !in p.tunnelType && '|' !in p.domain && '|' !in p.publicKey && '|' !in p.host
  {
    hide Payload, Split, Atoi;
    SplitFree(Payload(uri).value, '|');
  }

  /** Exactly when patching commutes with parsing, for addresses whose port is free of '|': if
      and only if the host is free of it too. */
  lemma PatchCommutesExactlyWithPlainHost(uri: string, listenAddr: string)
    requires Parse(uri).Ok? && IsBytes(listenAddr)
    requires SplitHostPort(listenAddr).Some? ==> '|' !in SplitHostPort(listenAddr).value.1
    ensures Parse(Patch(uri, listenAddr)) == Ok(Rehosted(Parse(uri).value, listenAddr))
            <==> (SplitHostPort(listenAddr).Some? ==> '|' !in SplitHostPort(listenAddr).value.0)
  {
    hide Patch, Parse, SplitHostPort;
    if AddressFits(listenAddr) {
      PatchCommutesWithParse(uri, listenAddr);
    } else if Parse(Patch(uri, listenAddr)).Ok? {
      ParsedFieldsFree(Patch(uri, listenAddr));
    }
  }

  /** What patching does to the type that is shown: it stays, except for an ssh type that has no
      shown name of its own; and the profile is an ssh profile afterwards only with two suffixes. */
  lemma PatchAndTunnelType(uri: string, listenAddr: string)
    requires Parse(uri).Ok? && AddressFits(listenAddr)
    ensures Parse(Patch(uri, listenAddr)).Ok?
    ensures var p, q := Parse(uri).value, Parse(Patch(uri, listenAddr)).value;
            && (q.DisplayTunnelType() == p.DisplayTunnelType() <==>
                !p.IsSsh() || p.tunnelType == "sayedns_ssh" || p.tunnelType == "dnstt_ssh")
            && (q.IsSsh() <==> HasSuffix(p.tunnelType, "_ssh_ssh"))
  {
    hide Parse, Patch, SplitHostPort, AddressFits;
    PatchCommutesWithParse(uri, listenAddr);
    ShownType(Parse(uri).value, Parse(Patch(uri, listenAddr)).value);
  }

  /** The names that are shown. */
  lemma ShownNames(p: Profile)
    ensures p.DisplayTunnelType() == if p.tunnelType == "sayedns" || p.tunnelType == "sayedns_ssh" then "noizdns"
                                     else if p.tunnelType == "dnstt_ssh" then "dnstt"
                                     else p.tunnelType
    ensures p.IsSsh() <==> exists t: string :: p.tunnelType == t + "_ssh"
  {
    PrefixesAndSuffixes(p.tunnelType, "_ssh");
  }

  lemma ShownType(p: Profile, q: Profile)
    requires q.tunnelType == TrimSuffix(p.tunnelType, "_ssh")
    ensures q.DisplayTunnelType() == p.DisplayTunnelType() <==>
            !p.IsSsh() || p.tunnelType == "sayedns_ssh" || p.tunnelType == "dnstt_ssh"
    ensures q.IsSsh() <==> HasSuffix(p.tunnelType, "_ssh_ssh")
  {
    hide TrimSuffix, HasSuffix;
    var t, u := p.tunnelType, q.tunnelType;
    TrimSsh(t);
    if p.IsSsh() {
      SshTypes(u);
      EndsInH(u);
    }
  }

  lemma SshTypes(u: string)
    ensures u + "_ssh" == "sayedns_ssh" <==> u == "sayedns"
    ensures u + "_ssh" == "dnstt_ssh" <==> u == "dnstt"
  {
    assert "sayedns" + "_ssh" == "sayedns_ssh" && "dnstt" + "_ssh" == "dnstt_ssh";
    assert (u + "_ssh")[..|u|] == u;
    assert "sayedns_ssh"[..7] == "sayedns" && "dnstt_ssh"[..5] == "dnstt";
  }

  lemma EndsInH(u: string)
    ensures u + "_ssh" != "sayedns" && u + "_ssh" != "dnstt" && u + "_ssh" != "noizdns" && u + "_ssh" != u
  {
    var t := u + "_ssh";
    assert t[|t| - 1] == 'h';
    assert "sayedns"[6] == 's' && "dnstt"[4] == 't' && "noizdns"[6] == 's';
  }

  lemma TrimSsh(t: string)
    ensures var u := TrimSuffix(t, "_ssh");
            && (HasSuffix(t, "_ssh") ==> t == u + "_ssh") && (!HasSuffix(t, "_ssh") ==> t == u)
            && (HasSuffix(u, "_ssh") <==> HasSuffix(t, "_ssh_ssh"))
  {
    var u := TrimSuffix(t, "_ssh");
    if HasSuffix(t, "_ssh") {
      assert t == u + "_ssh";
      if HasSuffix(u, "_ssh") { assert t[|t| - 8..] == u[|u| - 4..] + "_ssh"; }
      if HasSuffix(t, "_ssh_ssh") { assert u[|u| - 4..] == t[|t| - 8..][..4]; }
    } else {
      assert |t| >= 8 ==> t[|t| - 4..] == t[|t| - 8..][4..];
    }
  }

  lemma PatchFieldsRehosts(fields: seq<string>, listenAddr: string)
    requires |fields| >= 12
    ensures |PatchFields(fields, listenAddr)| == |fields|
    ensures ProfileOf(PatchFields(fields, listenAddr)) == Rehosted(ProfileOf(fields), listenAddr)
  {
    hide Atoi, SplitHostPort, TrimSuffix, ProfileOf;
    var stripped := fields[1 := TrimSuffix(fields[1], "_ssh")];
    UpdateType(fields, TrimSuffix(fields[1], "_ssh"));
    if SplitHostPort(listenAddr).Some? {
      var (host, port) := SplitHostPort(listenAddr).value;
      UpdateHost(stripped, host);
      UpdatePort(if host != "" then stripped[9 := host] else stripped, port);
    }
  }

  lemma UpdateType(fields: seq<string>, tunnelType: string)
    requires |fields| >= 12
    ensures ProfileOf(fields[1 := tunnelType]) == ProfileOf(fields).(tunnelType := tunnelType)
    ensures ProfileOf(fields).tunnelType == fields[1]
  {}

  lemma UpdateHost(fields: seq<string>, host: string)
    requires |fields| >= 12
    ensures host != "" ==> ProfileOf(fields[9 := host]) == ProfileOf(fields).(host := host)
  {}

  lemma UpdatePort(fields: seq<string>, port: string)
    requires |fields| >= 12
    ensures ProfileOf(fields[8 := port]) == ProfileOf(fields).(port := PositiveOr(port, 1080))
  {}

  /** With a non-empty host and a positive decimal port these are the host and the port. */
  lemma PatchSetsHostAndPort(uri: string, host: string, port: string)
    requires Parse(uri).Ok? && IsBytes(host + port) && Plain(host) && Plain(port) && '|' !in host && '|' !in port
    requires host != "" && Atoi(port).Some? && Atoi(port).value > 0
    ensures var p := Parse(uri).value;
            Parse(Patch(uri, host + ":" + port))
            == Ok(p.(tunnelType := TrimSuffix(p.tunnelType, "_ssh"), host := host, port := Atoi(port).value))
  {
    hide Atoi, SplitHostPort, TrimSuffix, Parse, Patch;
    AtoiEmpty();
    SplitHostPortPlain(host, port);
    assert forall i :: 0 <= i < |host| ==> (host + port)[i] == host[i];
    assert forall i :: 0 <= i < |port| ==> (host + port)[|host| + i] == port[i];
    PatchCommutesWithParse(uri, host + ":" + port);
  }

  /** Patching again with the same address changes nothing exactly when the tunnel type had at
      most one `_ssh` suffix. */
  lemma PatchIsIdempotent(uri: string, listenAddr: string)
    requires Parse(uri).Ok? && AddressFits(listenAddr)
    ensures Patch(Patch(uri, listenAddr), listenAddr) == Patch(uri, listenAddr)
            <==> !HasSuffix(TrimSuffix(Parse(uri).value.tunnelType, "_ssh"), "_ssh")
  {
    hide Payload, Split, UriOf, FreeOf, ByteFields;
    PayloadBytes(uri);
    var fields := Split(Payload(uri).value, '|');
    var once := PatchFields(fields, listenAddr);
    PatchFieldsShape(fields, listenAddr);
    UriKeepsFields(once);
    var twice := PatchFields(once, listenAddr);
    PatchFieldsShape(once, listenAddr);
    UriKeepsFields(twice);
    PatchFieldsTwice(fields, listenAddr);
  }

  lemma PatchFieldsTwice(fields: seq<string>, listenAddr: string)
    requires |fields| >= 10
    ensures var once := PatchFields(fields, listenAddr);
            |once| == |fields| && once[1] == TrimSuffix(fields[1], "_ssh") &&
            (PatchFields(once, listenAddr) == once <==> !HasSuffix(once[1], "_ssh"))
  {
    hide SplitHostPort;
    var once := PatchFields(fields, listenAddr);
    if HasSuffix(once[1], "_ssh") {
      assert |PatchFields(once, listenAddr)[1]| < |once[1]|;
    } else {
      assert PatchFields(once, listenAddr) == once;
    }
  }

  /** What the generator is meant to encode. */
  function Intended(config: Config, listenAddr: string): Profile {
    Profile("16", MappedType(config.tunnelType), "auto", config.domain, "127.0.0.1:53:0",
            false, 5000, "bbr", 1080, ListenHost(listenAddr), false, config.publicKey,
            "udp", "", "", "", 22, "127.0.0.1", "")
  }

  /** Generate/parse round trip: the configured domain, key, mapped tunnel type and listen host
      come back, with port 1080, transport udp and the fixed values of the other fields, exactly
      when none of the four contains the separator. */
  lemma ParseGenerated(config: Config, listenAddr: string)
    requires IsBytes(config.tunnelType) && IsBytes(config.domain) && IsBytes(config.publicKey) && IsBytes(listenAddr)
    ensures Parse(UriOf(GeneratedFields(config, listenAddr))) == Ok(Intended(config, listenAddr)) <==>
            '|' !in config.tunnelType && '|' !in config.domain && '|' !in config.publicKey
            && '|' !in ListenHost(listenAddr)
  {
    hide Payload, Split, UriOf, ProfileOf, GeneratedFields, FreeOf, ByteFields, ListenHost;
    var fields := GeneratedFields(config, listenAddr);
    if Parse(UriOf(fields)).Ok? { ParsedFieldsFree(UriOf(fields)); }
    if '|' !in config.tunnelType && '|' !in config.domain && '|' !in config.publicKey
       && '|' !in ListenHost(listenAddr) {
      GeneratedFieldsShape(config, listenAddr);
      UriKeepsFields(fields);
      GeneratedProfile(config, listenAddr);
    }
  }

  /** The tunnel type and the host it generates: noizdns is written as sayedns and no type as
      dnstt; an address without a host, or none, stands for all interfaces. */
  lemma GeneratedTypeAndHost(config: Config, listenAddr: string)
    requires IsBytes(config.tunnelType) && IsBytes(config.domain) && IsBytes(config.publicKey) && IsBytes(listenAddr)
    requires '|' !in config.tunnelType && '|' !in config.domain && '|' !in config.publicKey && '|' !in listenAddr
    ensures var r := Parse(UriOf(GeneratedFields(config, listenAddr)));
            && r.Ok?
            && (config.tunnelType == "noizdns" ==> r.value.tunnelType == "sayedns")
            && (config.tunnelType == "" ==> r.value.tunnelType == "dnstt")
            && (config.tunnelType != "noizdns" && config.tunnelType != "" ==> r.value.tunnelType == config.tunnelType)
            && r.value.host == match SplitHostPort(listenAddr)
                               case None => "0.0.0.0"
                               case Some((host, _)) => NonEmpty(host, "0.0.0.0")
  {
    hide Parse, UriOf, GeneratedFields, SplitHostPort;
    ListenHostFree(listenAddr);
    ParseGenerated(config, listenAddr);
  }

  lemma ListenHostFree(listenAddr: string)
    requires '|' !in listenAddr
    ensures '|' !in ListenHost(listenAddr)
  {
    if SplitHostPort(listenAddr).Some? {
      var host := SplitHostPort(listenAddr).value.0;
      assert forall c :: c in host ==> c in listenAddr;
    }
  }

  lemma {:induction false} GeneratedFieldsShape(config: Config, listenAddr: string)
    requires IsBytes(config.tunnelType) && IsBytes(config.domain) && IsBytes(config.publicKey) && IsBytes(listenAddr)
    requires '|' !in config.tunnelType && '|' !in config.domain && '|' !in config.publicKey
    requires '|' !in ListenHost(listenAddr)
    ensures var fields := GeneratedFields(config, listenAddr);
            |fields| == 23 && FreeOf(fields, '|') && ByteFields(fields)
  {
    hide MappedType, ListenHost, FreeOf, ByteFields, IsBytes;
    MappedTypeFits(config.tunnelType);
    ListenHostBytes(listenAddr);
    var a := ["16", MappedType(config.tunnelType), "auto", config.domain, "127.0.0.1:53:0", "0"];
    var b := ["5000", "bbr", "1080", ListenHost(listenAddr), "0", config.publicKey];
    var c := Blanks(10) + ["udp"];
    FieldsFit(config, listenAddr);
    FreeConcat(a, b);
    FreeConcat(a + b, c);
    assert GeneratedFields(config, listenAddr) == a + b + c;
  }

  lemma MappedTypeFits(tunnelType: string)
    requires IsBytes(tunnelType) && '|' !in tunnelType
    ensures IsBytes(MappedType(tunnelType)) && '|' !in MappedType(tunnelType)
  {}

  lemma ListenHostBytes(listenAddr: string)
    requires IsBytes(listenAddr)
    ensures IsBytes(ListenHost(listenAddr))
  {
    hide SplitHostPort;
    if SplitHostPort(listenAddr).Some? { SplitHostPortBytes(listenAddr); }
  }

  lemma {:induction false} FreeConcat(a: seq<string>, b: seq<string>)
    requires FreeOf(a, '|') && ByteFields(a) && FreeOf(b, '|') && ByteFields(b)
    ensures FreeOf(a + b, '|') && ByteFields(a + b)
  {
    hide IsBytes;
  }

  lemma FieldsFit(config: Config, listenAddr: string)
    requires IsBytes(MappedType(config.tunnelType)) && '|' !in MappedType(config.tunnelType)
    requires IsBytes(config.domain) && IsBytes(config.publicKey) && IsBytes(ListenHost(listenAddr))
    requires '|' !in config.domain && '|' !in config.publicKey && '|' !in ListenHost(listenAddr)
    ensures var a := ["16", MappedType(config.tunnelType), "auto", config.domain, "127.0.0.1:53:0", "0"];
            FreeOf(a, '|') && ByteFields(a)
    ensures var b := ["5000", "bbr", "1080", ListenHost(listenAddr), "0", config.publicKey];
            FreeOf(b, '|') && ByteFields(b)
    ensures var c := Blanks(10) + ["udp"];
            FreeOf(c, '|') && ByteFields(c)
  {
    hide MappedType, ListenHost;
  }

  lemma GeneratedProfile(config: Config, listenAddr: string)
    ensures ProfileOf(GeneratedFields(config, listenAddr)) == Intended(config, listenAddr)
  {
    hide Atoi, SplitHostPort, MappedType;
    Atoi5000();
    Atoi1080();
    AtoiEmpty();
  }

  lemma Atoi5000()
    ensures Atoi("5000") == Some(5000)
  {
    assert DigitsValue("5") == 5 by { assert "5"[..0] == ""; }
    assert DigitsValue("50") == 50 by { assert "50"[..1] == "5"; }
    assert DigitsValue("500") == 500 by { assert "500"[..2] == "50"; }
    assert "5000"[..3] == "500";
  }

  lemma Atoi1080()
    ensures Atoi("1080") == Some(1080)
  {
    assert DigitsValue("1") == 1 by { assert "1"[..0] == ""; }
    assert DigitsValue("10") == 10 by { assert "10"[..1] == "1"; }
    assert DigitsValue("108") == 108 by { assert "108"[..2] == "10"; }
    assert "1080"[..3] == "108";
  }

  lemma SolidPrefix(s: string, n: nat)
    requires Solid(s) && n <= |s|
    ensures Solid(s[..n])
  {}

  /** Encoding tolerance: for any payload, white space inserted anywhere into its canonical
      base64 and any part of the trailing padding dropped leave the parse result unchanged. */
  lemma ParseToleratesSpaceAndPadding(text: string, dropped: nat, gaps: seq<string>)
    requires IsBytes(text) && dropped <= PadCount(|text|) <= |Encode(text)|
    requires |gaps| == |Encode(text)| - dropped + 1 && forall i :: 0 <= i < |gaps| ==> AllSpace(gaps[i])
    ensures Parse(SCHEME + Weave(Encode(text)[..|Encode(text)| - dropped], gaps)) == Parse(SCHEME + Encode(text))
  {
    hide Encode, DecodeLenient, StripSpace, Weave, Split, Solid, Payload;
    var cut := Encode(text)[..|Encode(text)| - dropped];
    EncodeSolid(text);
    SolidPrefix(Encode(text), |cut|);
    StripWeave(cut, gaps);
    DecodeWithoutPadding(text, dropped);
    PayloadAfterScheme(Weave(cut, gaps));
    PayloadOfEncoded(text);
  }

  lemma PayloadAfterScheme(rest: string)
    requires DecodeLenient(StripSpace(rest)).Some?
    ensures Payload(SCHEME + rest) == Ok(DecodeLenient(StripSpace(rest)).value)
  {
    assert (SCHEME + rest)[|SCHEME|..] == rest;
  }
}
