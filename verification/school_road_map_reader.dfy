/**
 * The school version's `RoadMapReader`: builds a road map from the lines of a map file. Data
 * lines are ignored until a `.locations` or `.roads` line; the header must be the whole line,
 * untrimmed. A location line `<key>, <name>, <latitude>, <longitude>` gets or creates the
 * location of that name and makes `<key>` an alias for it; a road line `<from key>, <to key>,
 * <distance>` joins the locations of two aliases both ways. Lines that do not fit are dropped;
 * a longitude that is not a number ends the read, keeping what was read before it.
 *
 * `Float.parseFloat` is the parameter `parse`: `None` stands for a NumberFormatException.
 */
module SchoolRoadMapReading {
  import opened Wrappers
  import opened Costs
  import opened Paths
  import opened QueueContents
  import opened Graphs
  import opened SchoolRoadMaps
  import opened CsvLines

  /** `MODE_SKIP` (before any header), `MODE_LOCATIONS` and `MODE_ROADS`. */
  datatype Mode = SkipMode | LocationMode | RoadMode

  /** The content of the school road map while it is read. */
  datatype SchoolData = SchoolData(locations: map<string, Location>, order: seq<string>, roads: Adj)

  /**
   * Where a read stands: the mode, the number of lines seen, the map so far, the location
   * each key of the file stands for, and whether the read has ended.
   */
  datatype SchoolReading = SchoolReading(
    mode: Mode, lineNumber: nat, data: SchoolData, locationByName: map<string, Location>, aborted: bool)

  /** What `SchoolRoadMap.Valid` demands of the content. */
  ghost predicate WellData(d: SchoolData)
  {
    && d.roads.Keys == d.locations.Keys
    && WellFormed(d.roads)
    && NoDup(d.order)
    && (forall k :: k in d.order <==> k in d.locations)
    && (forall k | k in d.locations :: d.locations[k].name == k)
  }

  /** Every key of the file stands for a location of the map, stored under its name. */
  ghost predicate Resolves(d: SchoolData, locationByName: map<string, Location>)
  {
    forall a | a in locationByName ::
      locationByName[a].name in d.locations && d.locations[locationByName[a].name] == locationByName[a]
  }

  /** A well-formed map and keys that all resolve. */
  ghost predicate WellRead(r: SchoolReading)
  {
    WellData(r.data) && Resolves(r.data, r.locationByName)
  }

  /**
   * `d'` keeps everything of `d`: each location as it was, the enumeration order as a prefix
   * and each road list as a prefix.
   */
  ghost predicate Extends(d: SchoolData, d': SchoolData)
  {
    && (forall k | k in d.locations :: k in d'.locations && d'.locations[k] == d.locations[k])
    && d.order <= d'.order
    && (forall k | k in d.roads :: k in d'.roads && d.roads[k] <= d'.roads[k])
  }

  /** The content of a school road map object. */
  ghost function DataOf(m: SchoolRoadMap): SchoolData
    reads m, m.graph
  {
    SchoolData(m.graph.vertexByKey, m.graph.order, m.graph.adjacency)
  }

  /** `getOrCreateLocation(name, latitude, longitude)` on the content: the stored location, or a new one. */
  function GetOrCreate(d: SchoolData, name: string, latitude: real, longitude: real): (r: (SchoolData, Location))
    requires forall k | k in d.locations :: d.locations[k].name == k
    ensures r.1.name == name && name in r.0.locations && r.0.locations[name] == r.1
    ensures name in d.locations ==> r == (d, d.locations[name])
  {
    if name in d.locations then (d, d.locations[name])
    else
      var loc := Location(name, latitude, longitude);
      (SchoolData(d.locations[name := loc], d.order + [name], d.roads[name := []]), loc)
  }

  /**
   * `parseLocation(line)`: four tokens, a latitude and a longitude that parse; then the key
   * names the location got or created under the name. Some(`r`) is the new reading; `None`
   * means the longitude did not parse and the read ends.
   */
  function LocationOutcome(r: SchoolReading, line: string, parse: string -> Option<real>): (r': Option<SchoolReading>)
    requires forall k | k in r.data.locations :: r.data.locations[k].name == k
    ensures r'.None? <==> |Tokens(line)| == 4 && parse(Tokens(line)[2]).Some? && parse(Tokens(line)[3]).None?
    ensures r'.Some? ==> r'.value.mode == r.mode && r'.value.lineNumber == r.lineNumber && r'.value.aborted == r.aborted
  {
    var tokens := Tokens(line);
    if |tokens| != 4 then Some(r)
    else match parse(tokens[2])
      case None => Some(r)
      case Some(latitude) =>
        match parse(tokens[3])
        case None => None
        case Some(longitude) =>
          var (d, loc) := GetOrCreate(r.data, tokens[1], latitude, longitude);
          Some(r.(data := d, locationByName := r.locationByName[tokens[0] := loc]))
  }

  /**
   * `parseRoad(line)`: three tokens, two keys that name locations and a distance that parses;
   * then a road both ways between the two locations. Anything else drops the line.
   */
  function RoadOutcome(r: SchoolReading, line: string, parse: string -> Option<real>): (r': SchoolReading)
    requires WellRead(r)
    ensures r'.mode == r.mode && r'.lineNumber == r.lineNumber && r'.aborted == r.aborted
    ensures r'.locationByName == r.locationByName
    ensures r'.data.locations == r.data.locations && r'.data.order == r.data.order
  {
    var tokens := Tokens(line);
    if |tokens| != 3 || tokens[0] !in r.locationByName || tokens[1] !in r.locationByName then r
    else match parse(tokens[2])
      case None => r
      case Some(dist) =>
        var a, b := r.locationByName[tokens[0]].name, r.locationByName[tokens[1]].name;
        r.(data := r.data.(roads := AddArc(AddArc(r.data.roads, a, b, dist), b, a, dist)))
  }

  /** Getting or creating a location keeps the content well formed and keeps what was there. */
  lemma GetOrCreateKeepsData(d: SchoolData, name: string, latitude: real, longitude: real)
    requires WellData(d)
    ensures WellData(GetOrCreate(d, name, latitude, longitude).0)
    ensures Extends(d, GetOrCreate(d, name, latitude, longitude).0)
  {
    if name !in d.locations {
      assert multiset(d.order)[name] == 0;
    }
  }

  /** The keys known so far and the key just read all stand for locations of the map. */
  lemma NewAliasResolves(d: SchoolData, locationByName: map<string, Location>, key: string, name: string,
                         latitude: real, longitude: real)
    requires WellData(d) && Resolves(d, locationByName)
    ensures var (d', loc) := GetOrCreate(d, name, latitude, longitude);
      Resolves(d', locationByName[key := loc])
  {
    GetOrCreateKeepsData(d, name, latitude, longitude);
  }

  /** A road both ways between two locations keeps the content well formed and only appends. */
  lemma AddRoadKeepsData(d: SchoolData, a: Key, b: Key, c: real)
    requires WellData(d) && a in d.locations && b in d.locations
    ensures var d' := d.(roads := AddArc(AddArc(d.roads, a, b, c), b, a, c));
      WellData(d') && Extends(d, d')
  {
    var r1 := AddArc(d.roads, a, b, c);
    var r2 := AddArc(r1, b, a, c);
    forall k: Key, e: Edge | k in r2 && e in r2[k] ensures e.from == k && e.to in r2 {
      if k == b {
        assert e in r1[b] || e == Edge(b, a, c);
      }
      if k == a && k != b {
        assert e in d.roads[a] || e == Edge(a, b, c);
      }
    }
  }

  /** A location line keeps the reading well formed and keeps the map's content. */
  lemma LocationKeepsRead(r: SchoolReading, line: string, parse: string -> Option<real>)
    requires WellRead(r)
    ensures LocationOutcome(r, line, parse).Some? ==>
      WellRead(LocationOutcome(r, line, parse).value) && Extends(r.data, LocationOutcome(r, line, parse).value.data)
  {
    var tokens := Tokens(line);
    if |tokens| == 4 && parse(tokens[2]).Some? && parse(tokens[3]).Some? {
      GetOrCreateKeepsData(r.data, tokens[1], parse(tokens[2]).value, parse(tokens[3]).value);
      NewAliasResolves(r.data, r.locationByName, tokens[0], tokens[1], parse(tokens[2]).value, parse(tokens[3]).value);
    }
  }

  /** A road line keeps the reading well formed and only appends to road lists. */
  lemma RoadKeepsRead(r: SchoolReading, line: string, parse: string -> Option<real>)
    requires WellRead(r)
    ensures WellRead(RoadOutcome(r, line, parse)) && Extends(r.data, RoadOutcome(r, line, parse).data)
  {
    var tokens := Tokens(line);
    if |tokens| == 3 && tokens[0] in r.locationByName && tokens[1] in r.locationByName && parse(tokens[2]).Some? {
      AddRoadKeepsData(r.data, r.locationByName[tokens[0]].name, r.locationByName[tokens[1]].name, parse(tokens[2]).value);
    }
  }

  /**
   * `processLine(line)` on the line as read: a header switches the mode, other lines are
   * parsed as the mode says and ignored before any header. `None` means the read ends.
   */
  function LineOutcome(r: SchoolReading, line: string, parse: string -> Option<real>): (r': Option<SchoolReading>)
    requires WellRead(r)
    ensures r'.Some? ==> WellRead(r'.value) && Extends(r.data, r'.value.data)
    ensures r'.Some? ==> r'.value.lineNumber == r.lineNumber && r'.value.aborted == r.aborted
    ensures r'.None? ==> r.mode == LocationMode
  {
    if line == ".locations" then Some(r.(mode := LocationMode))
    else if line == ".roads" then Some(r.(mode := RoadMode))
    else match r.mode
      case LocationMode =>
        LocationKeepsRead(r, line, parse);
        LocationOutcome(r, line, parse)
      case RoadMode =>
        RoadKeepsRead(r, line, parse);
        Some(RoadOutcome(r, line, parse))
      case SkipMode => Some(r)
  }

  /** One line of the file, unless the read has already ended. */
  function Step(r: SchoolReading, line: string, parse: string -> Option<real>): (r': SchoolReading)
    requires WellRead(r)
    ensures WellRead(r') && Extends(r.data, r'.data)
    ensures r.aborted ==> r' == r
    ensures !r.aborted ==> r'.lineNumber == r.lineNumber + 1
  {
    if r.aborted then r
    else
      var counted := r.(lineNumber := r.lineNumber + 1);
      if Skipped(line) then counted
      else match LineOutcome(counted, line, parse)
        case None => counted.(aborted := true)
        case Some(r') => r'
  }

  /** The lines `lines`, one after the other, from `r` on. */
  function ReadAll(r: SchoolReading, lines: seq<string>, parse: string -> Option<real>): (r': SchoolReading)
    requires WellRead(r)
    ensures WellRead(r')
    ensures !r'.aborted ==> r'.lineNumber == r.lineNumber + |lines|
  {
    if lines == [] then r
    else Step(ReadAll(r, lines[..|lines| - 1], parse), lines[|lines| - 1], parse)
  }

  /** A new reader: skip mode, no line seen, an empty map and no keys. */
  const Fresh := SchoolReading(SkipMode, 0, SchoolData(map[], [], map[]), map[], false)

  /** Reading two pieces of a file one after the other is reading the whole file. */
  lemma {:induction false} ReadAllAppend(r: SchoolReading, a: seq<string>, b: seq<string>, parse: string -> Option<real>)
    requires WellRead(r)
    ensures ReadAll(r, a + b, parse) == ReadAll(ReadAll(r, a, parse), b, parse)
  {
    if b != [] {
      ReadAllAppend(r, a, b[..|b| - 1], parse);
      assert (a + b)[..|a + b| - 1] == a + b[..|b| - 1];
      assert (a + b)[|a + b| - 1] == b[|b| - 1];
    } else {
      assert a + b == a;
    }
  }

  /** Proof helper: reading one more line of the file is one more step. */
  lemma ReadNext(r: SchoolReading, lines: seq<string>, i: nat, parse: string -> Option<real>)
    requires WellRead(r) && i < |lines|
    ensures ReadAll(r, lines[..i + 1], parse) == Step(ReadAll(r, lines[..i], parse), lines[i], parse)
  {
    assert lines[..i + 1][..i] == lines[..i];
  }

  /** Once the read has ended, further lines change nothing. */
  lemma {:induction false} AbortedIsFinal(r: SchoolReading, lines: seq<string>, parse: string -> Option<real>)
    requires WellRead(r) && r.aborted
    ensures ReadAll(r, lines, parse) == r
  {
    if lines != [] {
      AbortedIsFinal(r, lines[..|lines| - 1], parse);
    }
  }

  /** A longitude that does not parse ends the read: nothing after its line is read. */
  lemma AbortEndsRead(r: SchoolReading, a: seq<string>, b: seq<string>, parse: string -> Option<real>)
    requires WellRead(r) && ReadAll(r, a, parse).aborted
    ensures ReadAll(r, a + b, parse) == ReadAll(r, a, parse)
  {
    ReadAllAppend(r, a, b, parse);
    AbortedIsFinal(ReadAll(r, a, parse), b, parse);
  }

  /**
   * Reading never changes a location once it exists: a later line with the same name, other
   * coordinates and perhaps another key only adds an alias. The order and road lists only grow.
   */
  lemma {:induction false} LocationsAreKept(r: SchoolReading, lines: seq<string>, parse: string -> Option<real>)
    requires WellRead(r)
    ensures Extends(r.data, ReadAll(r, lines, parse).data)
  {
    if lines != [] {
      var mid := ReadAll(r, lines[..|lines| - 1], parse);
      LocationsAreKept(r, lines[..|lines| - 1], parse);
      var last := ReadAll(r, lines, parse);
      assert last == Step(mid, lines[|lines| - 1], parse);
      forall k | k in r.data.roads ensures k in last.data.roads && r.data.roads[k] <= last.data.roads[k] {
        assert mid.data.roads[k] <= last.data.roads[k];
      }
    }
  }

  /** Comment and blank lines are only counted. */
  lemma {:induction false} SkippedLinesOnlyCount(r: SchoolReading, lines: seq<string>, parse: string -> Option<real>)
    requires WellRead(r) && !r.aborted
    requires forall i | 0 <= i < |lines| :: Skipped(lines[i])
    ensures ReadAll(r, lines, parse) == r.(lineNumber := r.lineNumber + |lines|)
  {
    if lines != [] {
      SkippedLinesOnlyCount(r, lines[..|lines| - 1], parse);
    }
  }

  class SchoolRoadMapReader {
    const roadMap: SchoolRoadMap
    var locationByName: map<string, Location>
    var mode: Mode
    var lineNumber: nat

    /** The reader's fields and its map's content as a reading. */
    ghost function Current(): SchoolReading
      reads this, roadMap, roadMap.graph
    {
      SchoolReading(mode, lineNumber, DataOf(roadMap), locationByName, false)
    }

    /**
     * `new RoadMapReader(is)`: reads every line of the file into a new map, up to the line
     * whose longitude ends the read.
     */
    constructor (lines: seq<string>, parse: string -> Option<real>)
      ensures fresh(roadMap) && fresh(roadMap.graph) && roadMap.Valid()
      ensures var r := ReadAll(Fresh, lines, parse);
        && DataOf(roadMap) == r.data && locationByName == r.locationByName
        && mode == r.mode && lineNumber == r.lineNumber
    {
      roadMap := new SchoolRoadMap();
      locationByName := map[];
      mode := SkipMode;
      lineNumber := 0;
      new;
      var aborted := false;
      var i := 0;
      while i < |lines| && !aborted
        invariant i <= |lines|
        invariant fresh(roadMap) && fresh(roadMap.graph) && roadMap.Valid()
        invariant ReadAll(Fresh, lines[..i], parse) == Current().(aborted := aborted)
      {
        aborted := ReadLine(lines[i], parse);
        ReadNext(Fresh, lines, i, parse);
        i := i + 1;
      }
      if aborted {
        AbortEndsRead(Fresh, lines[..i], lines[i..], parse);
        assert lines[..i] + lines[i..] == lines;
      } else {
        assert lines[..i] == lines;
      }
    }

    /** The body of the line loop: count the line, skip it or process it as it is. */
    method ReadLine(line: string, parse: string -> Option<real>) returns (aborted: bool)
      requires roadMap.Valid() && WellRead(Current())
      modifies this`locationByName, this`mode, this`lineNumber, roadMap.graph
      ensures roadMap.Valid()
      ensures Current().(aborted := aborted) == Step(old(Current()), line, parse)
    {
      lineNumber := lineNumber + 1;
      aborted := false;
      if !Skipped(line) {
        aborted := ProcessLine(line, parse);
      }
    }

    /** `processLine(line)`: the mode switch or the parse the mode calls for. */
    method ProcessLine(line: string, parse: string -> Option<real>) returns (aborted: bool)
      requires roadMap.Valid() && WellRead(Current())
      modifies this`locationByName, this`mode, roadMap.graph
      ensures roadMap.Valid()
      ensures aborted <==> LineOutcome(old(Current()), line, parse).None?
      ensures !aborted ==> Current() == LineOutcome(old(Current()), line, parse).value
      ensures aborted ==> Current() == old(Current())
    {
      aborted := false;
      if line == ".locations" {
        mode := LocationMode;
      } else if line == ".roads" {
        mode := RoadMode;
      } else if mode == LocationMode {
        aborted := ParseLocation(line, parse);
      } else if mode == RoadMode {
        ParseRoad(line, parse);
      }
    }

    /** `parseLocation(line)`: a new alias, perhaps for a new location, or the end of the read. */
    method ParseLocation(line: string, parse: string -> Option<real>) returns (aborted: bool)
      requires roadMap.Valid() && WellRead(Current())
      modifies this`locationByName, roadMap.graph
      ensures roadMap.Valid()
      ensures aborted <==> LocationOutcome(old(Current()), line, parse).None?
      ensures !aborted ==> Current() == LocationOutcome(old(Current()), line, parse).value
      ensures aborted ==> Current() == old(Current())
    {
      aborted := false;
      var tokens := Tokens(line);
      if |tokens| != 4 {
        return;
      }
      var latitude := parse(tokens[2]);
      if latitude.None? {
        return;
      }
      var longitude := parse(tokens[3]);
      if longitude.None? {
        return true;
      }
      var loc := roadMap.GetOrCreateLocation(tokens[1], latitude.value, longitude.value);
      locationByName := locationByName[tokens[0] := loc];
    }

    /** `parseRoad(line)`: a road both ways between the locations of two keys, or nothing. */
    method ParseRoad(line: string, parse: string -> Option<real>)
      requires roadMap.Valid() && WellRead(Current())
      modifies roadMap.graph
      ensures roadMap.Valid()
      ensures Current() == RoadOutcome(old(Current()), line, parse)
    {
      var tokens := Tokens(line);
      if |tokens| != 3 || tokens[0] !in locationByName || tokens[1] !in locationByName {
        return;
      }
      var dist := parse(tokens[2]);
      if dist.None? {
        return;
      }
      roadMap.AddRoad(locationByName[tokens[0]], locationByName[tokens[1]], dist.value);
    }
  }

  /** `readMap(is)`: the map a new reader builds from the file. */
  method ReadMap(lines: seq<string>, parse: string -> Option<real>) returns (m: SchoolRoadMap)
    ensures fresh(m) && m.Valid() && DataOf(m) == ReadAll(Fresh, lines, parse).data
  {
    var reader := new SchoolRoadMapReader(lines, parse);
    m := reader.roadMap;
  }
}
