/** The server's start-up script (scripts/sc-voice.mjs): the command line
    decides the port, the SuttaCentral API url and the protocol. */
module ScVoiceScript {
  import opened Wrappers

  /** What `Number(text)` gives for a port option: the value of a string of
      ASCII digits (the empty string counts as 0), or the text itself for
      anything else. */
  datatype PortValue = PortNumber(n: nat) | Unparsed(text: string)

  predicate IsDigits(s: string) {
    forall i :: 0 <= i < |s| ==> '0' <= s[i] <= '9'
  }

  function DigitsValue(s: string): (r: nat)
    requires IsDigits(s)
  {
    if s == [] then 0 else DigitsValue(s[..|s| - 1]) * 10 + (s[|s| - 1] as int - '0' as int)
  }

  function Number(s: string): (r: PortValue)
    ensures IsDigits(s) ==> r == PortNumber(DigitsValue(s))
    ensures !IsDigits(s) ==> r == Unparsed(s)
  {
    if IsDigits(s) then PortNumber(DigitsValue(s)) else Unparsed(s)
  }

  const LegacyPort: string := "-3000"
  const PortPrefix: string := "--port:"

  predicate IsPortArg(v: string) {
    v == LegacyPort || PortPrefix <= v
  }

  /** The port one argument sets. */
  function PortOf(v: string): (r: PortValue)
    requires IsPortArg(v)
    ensures v == LegacyPort ==> r == PortNumber(3000)
    ensures v != LegacyPort ==> r == Number(v[|PortPrefix|..])
  {
    if v == LegacyPort then PortNumber(3000) else Number(v[|PortPrefix|..])
  }

  /** One step of `argv.reduce(..., undefined)`. */
  function PortStep(a: Option<PortValue>, v: string): Option<PortValue> {
    if v == LegacyPort then Some(PortNumber(3000))
    else if PortPrefix <= v then Some(Number(v[|PortPrefix|..]))
    else a
  }

  function PortFold(a: Option<PortValue>, argv: seq<string>): Option<PortValue>
    decreases |argv|
  {
    if argv == [] then a else PortFold(PortStep(a, argv[0]), argv[1..])
  }

  /** The port left after reading every argument. */
  function Port(argv: seq<string>): Option<PortValue> {
    PortFold(None, argv)
  }

  /** The position of the last port argument, if any. */
  function LastPortArg(argv: seq<string>): (r: Option<nat>)
    ensures r.Some? ==>
      (r.value < |argv| && IsPortArg(argv[r.value])
       && forall k :: r.value < k < |argv| ==> !IsPortArg(argv[k]))
    ensures r.None? ==> forall k :: 0 <= k < |argv| ==> !IsPortArg(argv[k])
  {
    if argv == [] then None
    else if IsPortArg(argv[|argv| - 1]) then Some(|argv| - 1)
    else LastPortArg(argv[..|argv| - 1])
  }

  lemma {:induction false} PortFoldAppend(a: Option<PortValue>, xs: seq<string>, v: string)
    ensures PortFold(a, xs + [v]) == PortStep(PortFold(a, xs), v)
    decreases |xs|
  {
    if xs != [] {
      assert (xs + [v])[1..] == xs[1..] + [v];
      PortFoldAppend(PortStep(a, xs[0]), xs[1..], v);
    }
  }

  /** The last port argument wins; without one there is no port. */
  lemma {:induction false} PortIsLast(argv: seq<string>)
    ensures LastPortArg(argv).None? ==> Port(argv).None?
    ensures LastPortArg(argv).Some? ==> Port(argv) == Some(PortOf(argv[LastPortArg(argv).value]))
  {
    if argv != [] {
      var init := argv[..|argv| - 1];
      assert argv == init + [argv[|argv| - 1]];
      PortFoldAppend(None, init, argv[|argv| - 1]);
      PortIsLast(init);
    }
  }

  const StagingApi: string := "http://staging.suttacentral.net/api"
  const ProductionApi: string := "http://suttacentral.net/api"
  const AutoSyncSeconds: nat := 3600

  datatype ServerOptions = ServerOptions(apiUrl: string, protocol: string, autoSyncSeconds: nat, port: Option<PortValue>)

  /** The arguments the script reads: the process's own, or none when the
      process was started for another script (a test runner). */
  function ScriptArgs(processArgv: seq<string>, isScript: bool): seq<string> {
    if isScript then processArgv else []
  }

  /** The options the script starts the server with. When it was not
      started as a script, it reads no arguments and takes every default. */
  function ScriptOptions(processArgv: seq<string>, isScript: bool): (r: ServerOptions)
    ensures !isScript ==> r == ServerOptions(ProductionApi, "http", AutoSyncSeconds, None)
    ensures isScript ==> r == Options(processArgv)
  {
    Options(ScriptArgs(processArgv, isScript))
  }

  /** The options the server is started with. */
  function Options(argv: seq<string>): (r: ServerOptions)
    ensures r.apiUrl == (if "--staging" in argv then StagingApi else ProductionApi)
    ensures r.protocol == (if "--ssl" in argv then "https" else "http")
    ensures r.autoSyncSeconds == 3600
    ensures r.port.None? <==> forall k :: 0 <= k < |argv| ==> !IsPortArg(argv[k])
    ensures r.port.Some? ==> exists k :: 0 <= k < |argv| && IsPortArg(argv[k]) && r.port.value == PortOf(argv[k])
  {
    PortIsLast(argv);
    ServerOptions(if "--staging" in argv then StagingApi else ProductionApi,
                  if "--ssl" in argv then "https" else "http",
                  AutoSyncSeconds,
                  Port(argv))
  }

  /** For instance `--port:8080 -3000` listens on 3000, `-3000 --port:80` on 80. */
  lemma PortExamples()
    ensures Port(["--port:8080", "-3000"]) == Some(PortNumber(3000))
    ensures Port(["-3000", "--port:80"]) == Some(PortNumber(80))
  {
    var a := ["--port:8080", "-3000"];
    assert a == ["--port:8080"] + ["-3000"];
    PortFoldAppend(None, ["--port:8080"], "-3000");
    var b := ["-3000", "--port:80"];
    assert b == ["-3000"] + ["--port:80"];
    PortFoldAppend(None, ["-3000"], "--port:80");
    assert PortPrefix <= "--port:80";
    var d := "--port:80"[|PortPrefix|..];
    assert d == "80";
    assert d[..1] == "8" && "8"[..0] == "";
    assert DigitsValue("8") == 8;
    assert DigitsValue(d) == 80;
  }
}
