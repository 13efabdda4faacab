/**
 * The server's options: the benchmark folder and the ports to listen on, read from the
 * settings file with defaults for missing keys, and written back so that the file exists
 * with every key afterwards. The file system is a parameter: what reading the file gives,
 * and whether writing it fails.
 */
module ServerOptions {
  import opened Wrappers
  import opened Text
  import opened PropertyTypes
  import opened PropertyFile

  const SERVER_SETTINGS_FILE_NAME := "settings_server.ini"
  const PATH_KEY := "PathToBenchmarks"
  const PORTS_KEY := "ListeningPorts"
  const DEFAULT_PORTS := "9050, 9051, 9052"
  const NO_PORTS_MESSAGE := "No valid port numbers could be read from configuration file."
  const DISK_ERROR_PREFIX := "Couldn't read options from disk: "

  /** What reading the settings file gives: no file, its lines, or an error and its message. */
  datatype SettingsFile = Missing | Present(lines: seq<string>) | Unreadable(message: string)

  /** The dictionary the handler starts with. */
  function Settings(file: SettingsFile): (m: PropertyMap)
    requires !file.Unreadable?
    ensures m.Valid()
  {
    if file.Present? then Load(file.lines) else EMPTY
  }

  /** The benchmark folder the file names, or `""`. */
  function BenchmarkPath(file: SettingsFile): string
    requires !file.Unreadable?
  {
    Settings(file).Get(PATH_KEY).GetOr("")
  }

  /** The port list the file holds, or the default list. */
  function PortList(file: SettingsFile): string
    requires !file.Unreadable?
  {
    Settings(file).Get(PORTS_KEY).GetOr(DEFAULT_PORTS)
  }

  /** The dictionary once both keys have been read: any missing one holds its default. */
  function Completed(file: SettingsFile): (m: PropertyMap)
    requires !file.Unreadable?
    ensures m.Valid()
  {
    Settings(file).Set(PATH_KEY, BenchmarkPath(file)).Set(PORTS_KEY, PortList(file))
  }

  /** What `int.TryParse` gives for each piece. */
  function PortResults(pieces: seq<string>): (results: seq<Option<int>>)
    ensures |results| == |pieces|
    ensures forall i :: 0 <= i < |pieces| ==> results[i] == TryParse(Int32, pieces[i])
  {
    seq(|pieces|, i requires 0 <= i < |pieces| => TryParse(Int32, pieces[i]))
  }

  /** The values of the successful parses, in order. */
  function Accepted(results: seq<Option<int>>): (values: seq<int>)
    ensures |values| <= |results|
  {
    if |results| == 0 then []
    else
      var front := Accepted(results[..|results| - 1]);
      match results[|results| - 1]
      case Some(p) => front + [p]
      case None => front
  }

  /** The ports in the comma pieces: every piece `int.TryParse` accepts, in order. */
  function Ports(pieces: seq<string>): seq<int> {
    Accepted(PortResults(pieces))
  }

  /** A value is accepted iff some parse gives it. */
  lemma {:induction false} AcceptedMembers(results: seq<Option<int>>, p: int)
    ensures p in Accepted(results) <==> Some(p) in results
  {
    if |results| > 0 {
      var n := |results| - 1;
      AcceptedMembers(results[..n], p);
      assert results == results[..n] + [results[n]];
    }
  }

  /** A port is listed iff some piece parses to it, and then it is a 32-bit integer. */
  lemma PortsFromPieces(pieces: seq<string>, p: int)
    ensures p in Ports(pieces) <==> exists i :: 0 <= i < |pieces| && TryParse(Int32, pieces[i]) == Some(p)
    ensures p in Ports(pieces) ==> InWidth(Int32, p)
  {
    var results := PortResults(pieces);
    AcceptedMembers(results, p);
    if Some(p) in results {
      var i :| 0 <= i < |results| && results[i] == Some(p);
      assert TryParse(Int32, pieces[i]) == Some(p);
    }
  }

  /** Parses that all succeed are accepted in full. */
  lemma {:induction false} AcceptedAll(results: seq<Option<int>>, values: seq<int>)
    requires |results| == |values| && forall i :: 0 <= i < |values| ==> results[i] == Some(values[i])
    ensures Accepted(results) == values
  {
    if |results| > 0 {
      var n := |results| - 1;
      AcceptedAll(results[..n], values[..n]);
      assert values == values[..n] + [values[n]];
    }
  }

  /** The printed pieces of a `", "` list parse back to the numbers, in order. */
  lemma PortsOfSpaced(values: seq<int>)
    requires forall v :: v in values ==> InWidth(Int32, v)
    ensures Ports(Spaced(Texts(values))) == values
  {
    var pieces := Spaced(Texts(values));
    var results := PortResults(pieces);
    forall i | 0 <= i < |values| ensures results[i] == Some(values[i]) {
      assert values[i] in values;
      TryParsePrinted(Int32, values[i]);
    }
    AcceptedAll(results, values);
  }

  /** A port list written as `", "`-joined numbers reads back as those numbers. */
  lemma PortsOfJoined(values: seq<int>)
    requires |values| >= 1 && forall v :: v in values ==> InWidth(Int32, v)
    ensures Ports(Split(Join(Texts(values), ", "), ',')) == values
  {
    SplitJoined(Texts(values));
    PortsOfSpaced(values);
  }

  lemma DefaultTexts()
    ensures Texts([9050, 9051, 9052]) == ["9050", "9051", "9052"]
  {
    assert NatText(9) == "9" && NatText(90) == "90" && NatText(905) == "905";
    assert NatText(9050) == "9050" && NatText(9051) == "9051" && NatText(9052) == "9052";
  }

  lemma DefaultJoined()
    ensures Join(["9050", "9051", "9052"], ", ") == DEFAULT_PORTS
  {
    var texts := ["9050", "9051", "9052"];
    assert texts[..2] == ["9050", "9051"] && texts[..2][..1] == ["9050"];
    assert Join(texts[..2], ", ") == "9050, 9051";
  }

  /** The default list is the ports 9050, 9051 and 9052. */
  lemma DefaultPorts()
    ensures Ports(Split(DEFAULT_PORTS, ',')) == [9050, 9051, 9052]
  {
    DefaultTexts();
    DefaultJoined();
    PortsOfJoined([9050, 9051, 9052]);
  }

  /** The options of the server. */
  class ApplicationOptionsServer {
    /** `TracePathMain`, the folder the benchmark traces are read from. */
    var tracePathMain: string
    var listeningPorts: seq<int>

    constructor ()
      ensures tracePathMain == "" && listeningPorts == []
    {
      tracePathMain := "";
      listeningPorts := [];
    }

    /** The loop of `loadOptions` over the comma pieces: each port parsed is appended. */
    method AddPorts(pieces: seq<string>)
      modifies this`listeningPorts
      ensures listeningPorts == old(listeningPorts) + Ports(pieces)
    {
      var i := 0;
      while i < |pieces|
        invariant 0 <= i <= |pieces|
        invariant listeningPorts == old(listeningPorts) + Accepted(PortResults(pieces)[..i])
      {
        var port := TryParse(Int32, pieces[i]);
        if port.Some? {
          listeningPorts := listeningPorts + [port.value];
        }
        assert PortResults(pieces)[..i + 1][..i] == PortResults(pieces)[..i];
        i := i + 1;
      }
      assert PortResults(pieces)[..i] == PortResults(pieces);
    }

    /**
     * `loadOptions`: reads the two keys (storing their defaults when missing), appends
     * the ports the list gives, fails when there is no port at all, and otherwise writes
     * the file back. Any exception ends it with false and the message shown.
     */
    method LoadOptions(file: SettingsFile, saveError: Option<string>)
      returns (ok: bool, error: Option<string>, saved: Option<seq<string>>)
      modifies this
      ensures ok <==> error.None?
      ensures ok <==> saved.Some?
      ensures file.Unreadable? ==>
        error == Some(DISK_ERROR_PREFIX + file.message) && unchanged(this)
      ensures !file.Unreadable? ==> tracePathMain == BenchmarkPath(file)
      ensures !file.Unreadable? ==>
        listeningPorts == old(listeningPorts) + Ports(Split(PortList(file), ','))
      ensures !file.Unreadable? && |listeningPorts| == 0 ==> error == Some(NO_PORTS_MESSAGE)
      ensures !file.Unreadable? && |listeningPorts| > 0 && saveError.Some? ==>
        error == Some(DISK_ERROR_PREFIX + saveError.value)
      ensures !file.Unreadable? && |listeningPorts| > 0 && saveError.None? ==>
        saved == Some(SaveLines(Completed(file)))
    {
      if file.Unreadable? {
        return false, Some(DISK_ERROR_PREFIX + file.message), None;
      }
      var handler := new PropertyFileHandler(SERVER_SETTINGS_FILE_NAME,
                                             if file.Present? then Some(file.lines) else None);
      ghost var m := Settings(file);
      assert handler.propertiesMap == m;
      var path := handler.GetPropertyValueOrDefault(PATH_KEY, "");
      tracePathMain := path;
      SetGet(m, PATH_KEY, path, PORTS_KEY);
      var portsString := handler.GetPropertyValueOrDefault(PORTS_KEY, DEFAULT_PORTS);
      assert portsString == m.Get(PORTS_KEY).GetOr(DEFAULT_PORTS);
      ghost var settled := handler.propertiesMap;
      assert settled == m.Set(PATH_KEY, path).Set(PORTS_KEY, portsString) == Completed(file);
      AddPorts(Split(portsString, ','));
      assert tracePathMain == path && handler.propertiesMap == settled;
      if |listeningPorts| == 0 {
        return false, Some(NO_PORTS_MESSAGE), None;
      }
      if saveError.Some? {
        return false, Some(DISK_ERROR_PREFIX + saveError.value), None;
      }
      var lines := handler.Save();
      return true, None, Some(lines);
    }
  }
}
