/** The server's launch configuration and the command line handle_start builds from it
    (a3sdt.py:244-255). */
module Launch {
  import opened Wrappers
  import NumberText
  import PosixPath

  /** The configuration keys handle_start and handle_stop read. */
  datatype ServerConfig = ServerConfig(
    name: string,
    port: int,
    rootDirectory: string,
    serverCommand: string,
    basicConfigFile: string,
    configFile: string,
    profilesDirectory: string,
    serverMods: string,
    sigtermTimeoutSeconds: nat)

  /** The grace period the source hard-codes in BASE_CONFIG. */
  const DefaultSigtermTimeoutSeconds: nat := 5000

  /** What the server's command line carries; the inverse image of LaunchArgs. */
  datatype LaunchSettings = LaunchSettings(
    name: string,
    port: int,
    basicConfigFile: string,
    configFile: string,
    profilesDirectory: string,
    serverMods: string)

  function Settings(c: ServerConfig): LaunchSettings {
    LaunchSettings(c.name, c.port, c.basicConfigFile, c.configFile, c.profilesDirectory, c.serverMods)
  }

  /** The executable: the server command inside the server root directory. */
  function ServerCommandPath(c: ServerConfig): (path: string)
    ensures PosixPath.IsAbsolute(c.serverCommand) ==> path == c.serverCommand
    ensures !PosixPath.IsAbsolute(c.serverCommand) && c.rootDirectory != [] &&
            c.rootDirectory[|c.rootDirectory| - 1] != '/' ==>
      path == c.rootDirectory + "/" + c.serverCommand
    ensures !PosixPath.IsAbsolute(c.serverCommand) &&
            (c.rootDirectory == [] || c.rootDirectory[|c.rootDirectory| - 1] == '/') ==>
      path == c.rootDirectory + c.serverCommand
  {
    PosixPath.Join(c.rootDirectory, c.serverCommand)
  }

  /** The flags that open the six configured arguments, in order. */
  const SettingFlags: seq<string> := ["-name=", "-port=", "-cfg=", "-config=", "-profiles=", "-serverMod="]

  /** The eight arguments, in the source's order: six configured settings, each behind
      its flag, then the two constant flags. */
  function LaunchArgs(c: ServerConfig): (args: seq<string>)
    ensures |args| == 8 && args[6] == "-nosound" && args[7] == "-autoInit"
    ensures forall k :: 0 <= k < 6 ==>
      |SettingFlags[k]| <= |args[k]| && args[k][..|SettingFlags[k]|] == SettingFlags[k]
  {
    [ "-name=\"" + c.name + "\"",
      "-port=" + NumberText.IntText(c.port),
      "-cfg=" + c.basicConfigFile,
      "-config=" + c.configFile,
      "-profiles=" + c.profilesDirectory,
      "-serverMod=" + c.serverMods,
      "-nosound",
      "-autoInit" ]
  }

  function DropPrefix(prefix: string, s: string): (r: Option<string>)
    ensures r.Some? <==> |prefix| <= |s| && s[..|prefix|] == prefix
    ensures r.Some? ==> s == prefix + r.value
  {
    if |prefix| <= |s| && s[..|prefix|] == prefix then Some(s[|prefix|..]) else None
  }

  /** Reads the settings back from a command line of the shape LaunchArgs produces. */
  function ParseLaunchArgs(args: seq<string>): Option<LaunchSettings> {
    if |args| != 8 || args[6] != "-nosound" || args[7] != "-autoInit" then None
    else
      var quoted :- DropPrefix("-name=\"", args[0]);
      if quoted == [] || quoted[|quoted| - 1] != '"' then None
      else
        var portText :- DropPrefix("-port=", args[1]);
        var port :- NumberText.ParseInt(portText);
        var basic :- DropPrefix("-cfg=", args[2]);
        var config :- DropPrefix("-config=", args[3]);
        var profiles :- DropPrefix("-profiles=", args[4]);
        var mods :- DropPrefix("-serverMod=", args[5]);
        Some(LaunchSettings(quoted[..|quoted| - 1], port, basic, config, profiles, mods))
  }

  /** The command line has exactly eight entries, ends in the two constant flags, and
      carries every setting so that it can be read back unchanged. */
  lemma LaunchArgsRoundTrip(c: ServerConfig)
    ensures |LaunchArgs(c)| == 8
    ensures LaunchArgs(c)[6] == "-nosound" && LaunchArgs(c)[7] == "-autoInit"
    ensures ParseLaunchArgs(LaunchArgs(c)) == Some(Settings(c))
  {
    var args := LaunchArgs(c);
    assert args[0] == "-name=\"" + (c.name + "\"");
    assert DropPrefix("-name=\"", args[0]) == Some(c.name + "\"");
    assert DropPrefix("-port=", args[1]) == Some(NumberText.IntText(c.port));
    NumberText.ParseIntText(c.port);
    assert DropPrefix("-cfg=", args[2]) == Some(c.basicConfigFile);
    assert DropPrefix("-config=", args[3]) == Some(c.configFile);
    assert DropPrefix("-profiles=", args[4]) == Some(c.profilesDirectory);
    assert DropPrefix("-serverMod=", args[5]) == Some(c.serverMods);
    assert (c.name + "\"")[..|c.name|] == c.name;
  }
}
