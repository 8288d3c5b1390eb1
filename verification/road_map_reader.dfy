/**
 * `model.RoadMapReader`: reads a road map from the lines of a map file. A `.locations` line
 * starts the point section (`<id>, <location name>, <latitude>, <longitude>`), a `.roads` line
 * the road section (`<from id>, <to id>, <distance>`). Comment and blank lines are skipped;
 * every other line is trimmed and processed, and a line that cannot be processed is reported
 * by its number. A longitude that is not a number ends the whole read, keeping what was read
 * before it. The section state belongs to the reader and carries over to its next read.
 *
 * `Float.parseFloat` is the parameter `parse`: `None` stands for a NumberFormatException.
 */
module RoadMapReading {
  import opened Wrappers
  import opened Costs
  import opened Paths
  import opened QueueContents
  import opened Graphs
  import opened GeoCoords
  import opened RoadMaps
  import opened CsvLines

  /** `STATE_READ` (no section yet), `STATE_READ_LOCATIONS` and `STATE_READ_ROADS`. */
  datatype ReadState = AwaitSection | ReadLocations | ReadRoads

  /** The content of a road map while it is read: its points, their order and its roads. */
  datatype MapData = MapData(points: map<Key, Point>, order: seq<Key>, roads: Adj)

  const NoMap := MapData(map[], [], map[])

  /** What `RoadMap.Valid` demands of a map that has not been searched yet. */
  ghost predicate WellData(m: MapData)
  {
    && m.roads.Keys == m.points.Keys
    && WellFormed(m.roads)
    && NoDup(m.order)
    && (forall k :: k in m.order <==> k in m.points)
    && (forall k | k in m.points :: m.points[k].id == k && InRange(m.points[k].coord))
  }

  /** The content of a road map object. */
  ghost function DataOf(rm: RoadMap): MapData
    reads rm, rm.graph
  {
    MapData(rm.graph.vertexByKey, rm.graph.order, rm.graph.adjacency)
  }

  /** A road map that was never searched holds well-formed data. */
  lemma ValidMapData(rm: RoadMap)
    requires rm.Valid() && rm.currentSource == None
    ensures WellData(DataOf(rm))
  {
  }

  /**
   * `m'` keeps everything of `m`: each point under its id, the enumeration order as a prefix
   * and each road list as a prefix.
   */
  ghost predicate Extends(m: MapData, m': MapData)
  {
    && (forall k | k in m.points :: k in m'.points && m'.points[k] == m.points[k])
    && m.order <= m'.order
    && (forall k | k in m.roads :: k in m'.roads && m.roads[k] <= m'.roads[k])
  }

  /** A road both ways between two points keeps the map well formed and only appends to road lists. */
  lemma AddRoadKeepsData(m: MapData, a: Key, b: Key, c: real)
    requires WellData(m) && a in m.points && b in m.points
    ensures var m' := m.(roads := AddArc(AddArc(m.roads, a, b, c), b, a, c));
      WellData(m') && Extends(m, m')
  {
    var r1 := AddArc(m.roads, a, b, c);
    var r2 := AddArc(r1, b, a, c);
    forall k: Key, e: Edge | k in r2 && e in r2[k] ensures e.from == k && e.to in r2 {
      if k == b {
        assert e in r1[b] || e == Edge(b, a, c);
      }
      if k == a && k != b {
        assert e in m.roads[a] || e == Edge(a, b, c);
      }
    }
  }

  /** `createAndAddPoint` on the map's content: coordinates are checked first, then the id. */
  function AddPoint(m: MapData, id: Key, location: string, latitude: real, longitude: real)
    : (r: Result<MapData, PointError>)
    ensures r.Success? <==> InRange(GeoCoord(latitude, longitude)) && id !in m.points
    ensures r.Success? ==> r.value.points == m.points[id := Point(id, location, GeoCoord(latitude, longitude))]
    ensures r.Success? ==> r.value.order == m.order + [id] && r.value.roads == m.roads[id := []]
  {
    match MakeGeoCoord(latitude, longitude)
    case Failure(e) => Failure(BadCoord(e))
    case Success(c) =>
      if id in m.points then Failure(DuplicateId(id))
      else Success(MapData(m.points[id := Point(id, location, c)], m.order + [id], m.roads[id := []]))
  }

  /** A new point keeps the map well formed and keeps everything already in it. */
  lemma AddPointKeepsData(m: MapData, id: Key, location: string, latitude: real, longitude: real)
    requires WellData(m)
    ensures var r := AddPoint(m, id, location, latitude, longitude);
      r.Success? ==> WellData(r.value) && Extends(m, r.value)
  {
    if AddPoint(m, id, location, latitude, longitude).Success? {
      assert multiset(m.order)[id] == 0;
    }
  }

  /** What processing one line does to the map: it changes it, refuses the line, or ends the read. */
  datatype LineEffect = Ok(data: MapData) | Refused | Aborted

  /**
   * `parseLocation(line, map)`: four tokens, a latitude and a longitude that parse, then
   * `createAndAddPoint`, whose refusal refuses the line. A longitude that does not parse is
   * read outside the exception handler and ends the read.
   */
  function LocationEffect(m: MapData, line: string, parse: string -> Option<real>): (r: LineEffect)
    ensures r.Ok? ==> m.points.Keys < r.data.points.Keys
    ensures r.Aborted? <==> |Tokens(line)| == 4 && parse(Tokens(line)[2]).Some? && parse(Tokens(line)[3]).None?
  {
    var tokens := Tokens(line);
    if |tokens| != 4 then Refused
    else match parse(tokens[2])
      case None => Refused
      case Some(latitude) =>
        match parse(tokens[3])
        case None => Aborted
        case Some(longitude) =>
          match AddPoint(m, tokens[0], tokens[1], latitude, longitude)
          case Failure(_) => Refused
          case Success(m') => Ok(m')
  }

  /**
   * `parseRoad(line, map)`: three tokens, both ends known points and a distance that parses;
   * then a road both ways. Nothing else about the distance is checked.
   */
  function RoadEffect(m: MapData, line: string, parse: string -> Option<real>): (r: LineEffect)
    requires m.roads.Keys == m.points.Keys
    ensures !r.Aborted?
    ensures r.Ok? ==> r.data.points == m.points && r.data.order == m.order
    ensures r.Ok? ==> |Tokens(line)| == 3 && Tokens(line)[0] in m.points && Tokens(line)[1] in m.points
  {
    var tokens := Tokens(line);
    if |tokens| != 3 || tokens[0] !in m.points || tokens[1] !in m.points then Refused
    else match parse(tokens[2])
      case None => Refused
      case Some(dist) =>
        Ok(m.(roads := AddArc(AddArc(m.roads, tokens[0], tokens[1], dist), tokens[1], tokens[0], dist)))
  }

  /** A location line keeps the map well formed and keeps everything already in it. */
  lemma LocationKeepsData(m: MapData, line: string, parse: string -> Option<real>)
    requires WellData(m)
    ensures LocationEffect(m, line, parse).Ok? ==>
      WellData(LocationEffect(m, line, parse).data) && Extends(m, LocationEffect(m, line, parse).data)
  {
    var tokens := Tokens(line);
    if LocationEffect(m, line, parse).Ok? {
      AddPointKeepsData(m, tokens[0], tokens[1], parse(tokens[2]).value, parse(tokens[3]).value);
    }
  }

  /** A road line keeps the map well formed and only appends to road lists. */
  lemma RoadKeepsData(m: MapData, line: string, parse: string -> Option<real>)
    requires WellData(m)
    ensures RoadEffect(m, line, parse).Ok? ==>
      WellData(RoadEffect(m, line, parse).data) && Extends(m, RoadEffect(m, line, parse).data)
  {
    var tokens := Tokens(line);
    if RoadEffect(m, line, parse).Ok? {
      AddRoadKeepsData(m, tokens[0], tokens[1], parse(tokens[2]).value);
    }
  }

  /**
   * `processLine(line, map)` on a trimmed line: a section header switches the state and
   * succeeds; other lines are parsed according to the state, and refused before any header.
   */
  function LineOutcome(state: ReadState, m: MapData, line: string, parse: string -> Option<real>)
    : (r: (ReadState, LineEffect))
    requires WellData(m)
    ensures r.1.Ok? ==> WellData(r.1.data) && Extends(m, r.1.data)
    ensures r.0 != state ==> r.1 == Ok(m) && (line == ".locations" || line == ".roads")
    ensures r.1.Aborted? ==> state == ReadLocations
  {
    if line == ".locations" then (ReadLocations, Ok(m))
    else if line == ".roads" then (ReadRoads, Ok(m))
    else match state
      case ReadLocations =>
        LocationKeepsData(m, line, parse);
        (state, LocationEffect(m, line, parse))
      case ReadRoads =>
        RoadKeepsData(m, line, parse);
        (state, RoadEffect(m, line, parse))
      case AwaitSection => (state, Refused)
  }

  /**
   * Where a read stands: the section state, the number of lines seen, the map so far, the
   * numbers of the lines that were reported as not processed, and whether the read has ended.
   */
  datatype Reading = Reading(state: ReadState, lineNumber: nat, data: MapData, refused: seq<nat>, aborted: bool)

  /** The state of a read that starts in section state `state`. */
  function Start(state: ReadState): Reading
  {
    Reading(state, 0, NoMap, [], false)
  }

  /** One line of the file, unless the read has already ended. */
  function Step(r: Reading, line: string, parse: string -> Option<real>): (r': Reading)
    requires WellData(r.data)
    ensures WellData(r'.data) && Extends(r.data, r'.data)
    ensures r.aborted ==> r' == r
    ensures !r.aborted ==> r'.lineNumber == r.lineNumber + 1
    ensures r'.lineNumber >= r.lineNumber
    ensures r.refused <= r'.refused && |r'.refused| <= |r.refused| + 1
    ensures |r'.refused| > |r.refused| ==> r'.refused[|r.refused|] == r'.lineNumber
  {
    if r.aborted then r
    else
      var n := r.lineNumber + 1;
      if Skipped(line) then r.(lineNumber := n)
      else
        var (state, effect) := LineOutcome(r.state, r.data, Trim(line), parse);
        match effect
        case Ok(m) => r.(state := state, lineNumber := n, data := m)
        case Refused => r.(state := state, lineNumber := n, refused := r.refused + [n])
        case Aborted => r.(state := state, lineNumber := n, aborted := true)
  }

  /** The lines `lines`, one after the other, from `r` on. */
  function ReadAll(r: Reading, lines: seq<string>, parse: string -> Option<real>): (r': Reading)
    requires WellData(r.data)
    ensures WellData(r'.data)
    ensures r'.lineNumber <= r.lineNumber + |lines|
    ensures !r'.aborted ==> r'.lineNumber == r.lineNumber + |lines|
    ensures r.refused <= r'.refused
  {
    if lines == [] then r
    else Step(ReadAll(r, lines[..|lines| - 1], parse), lines[|lines| - 1], parse)
  }

  /** Reading two pieces of a file one after the other is reading the whole file. */
  lemma {:induction false} ReadAllAppend(r: Reading, a: seq<string>, b: seq<string>, parse: string -> Option<real>)
    requires WellData(r.data)
    ensures ReadAll(r, a + b, parse) == ReadAll(ReadAll(r, a, parse), b, parse)
  {
    if b != [] {
      ReadAllAppend(r, a, b[..|b| - 1], parse);
      assert (a + b)[..|a + b| - 1] == a + b[..|b| - 1];
      assert (a + b)[|a + b| - 1] == b[|b| - 1];
    } else {
      assert a + b == a;
    }
  }

  /** Proof helper: reading one more line of the file is one more step. */
  lemma ReadNext(r: Reading, lines: seq<string>, i: nat, parse: string -> Option<real>)
    requires WellData(r.data) && i < |lines|
    ensures ReadAll(r, lines[..i + 1], parse) == Step(ReadAll(r, lines[..i], parse), lines[i], parse)
  {
    assert lines[..i + 1][..i] == lines[..i];
  }

  /** Once the read has ended, further lines change nothing. */
  lemma {:induction false} AbortedIsFinal(r: Reading, lines: seq<string>, parse: string -> Option<real>)
    requires WellData(r.data) && r.aborted
    ensures ReadAll(r, lines, parse) == r
  {
    if lines != [] {
      AbortedIsFinal(r, lines[..|lines| - 1], parse);
    }
  }

  /** A longitude that does not parse ends the read: nothing after its line is read. */
  lemma AbortEndsRead(r: Reading, a: seq<string>, b: seq<string>, parse: string -> Option<real>)
    requires WellData(r.data) && ReadAll(r, a, parse).aborted
    ensures ReadAll(r, a + b, parse) == ReadAll(r, a, parse)
  {
    ReadAllAppend(r, a, b, parse);
    AbortedIsFinal(ReadAll(r, a, parse), b, parse);
  }

  /** Comment and blank lines are only counted: the state, the map and the reports stay. */
  lemma {:induction false} SkippedLinesOnlyCount(r: Reading, lines: seq<string>, parse: string -> Option<real>)
    requires WellData(r.data) && !r.aborted
    requires forall i | 0 <= i < |lines| :: Skipped(lines[i])
    ensures ReadAll(r, lines, parse) == r.(lineNumber := r.lineNumber + |lines|)
  {
    if lines != [] {
      SkippedLinesOnlyCount(r, lines[..|lines| - 1], parse);
    }
  }

  /**
   * Reading never loses or alters a point: the first point read under an id stays, later
   * points only follow it in the enumeration order, and every road list only grows at its end.
   */
  lemma {:induction false} PointsAreKept(r: Reading, lines: seq<string>, parse: string -> Option<real>)
    requires WellData(r.data)
    ensures Extends(r.data, ReadAll(r, lines, parse).data)
  {
    if lines != [] {
      var mid := ReadAll(r, lines[..|lines| - 1], parse);
      PointsAreKept(r, lines[..|lines| - 1], parse);
      var last := ReadAll(r, lines, parse);
      assert last == Step(mid, lines[|lines| - 1], parse);
      forall k | k in r.data.roads ensures k in last.data.roads && r.data.roads[k] <= last.data.roads[k] {
        assert mid.data.roads[k] <= last.data.roads[k];
      }
    }
  }

  /** The reported line numbers are increasing and none is past the current line. */
  ghost predicate ReportsInOrder(r: Reading)
  {
    && (forall i | 0 <= i < |r.refused| :: 0 < r.refused[i] <= r.lineNumber)
    && (forall i, j | 0 <= i < j < |r.refused| :: r.refused[i] < r.refused[j])
  }

  /** Proof helper: one line keeps the reported line numbers increasing and within the lines seen. */
  lemma StepReportsInOrder(r: Reading, line: string, parse: string -> Option<real>)
    requires WellData(r.data) && ReportsInOrder(r)
    ensures ReportsInOrder(Step(r, line, parse))
  {
    var r' := Step(r, line, parse);
    assert forall i | 0 <= i < |r.refused| :: r'.refused[i] == r.refused[i];
    if |r'.refused| > |r.refused| {
      assert r'.refused == r.refused + [r'.lineNumber];
    } else {
      assert r'.refused == r.refused;
    }
  }

  /** The reported line numbers are increasing and each names a line of the file that was seen. */
  lemma {:induction false} RefusedAreLines(r: Reading, lines: seq<string>, parse: string -> Option<real>)
    requires WellData(r.data) && ReportsInOrder(r)
    ensures ReportsInOrder(ReadAll(r, lines, parse))
  {
    if lines != [] {
      RefusedAreLines(r, lines[..|lines| - 1], parse);
      StepReportsInOrder(ReadAll(r, lines[..|lines| - 1], parse), lines[|lines| - 1], parse);
    }
  }

  class RoadMapReader {
    var state: ReadState
    var lineNumber: nat

    constructor ()
      ensures state == AwaitSection && lineNumber == 0
    {
      state := AwaitSection;
      lineNumber := 0;
    }

    /**
     * `read(is)` on the lines of the file: a new road map holding what the lines describe, up
     * to the line whose longitude ends the read, and the numbers of the lines that could not
     * be processed. The section state starts where the previous read left it.
     */
    method Read(lines: seq<string>, parse: string -> Option<real>) returns (rm: RoadMap, refused: seq<nat>)
      modifies this
      ensures fresh(rm) && fresh(rm.graph) && rm.Valid() && rm.currentSource == None
      ensures var r := ReadAll(Start(old(state)), lines, parse);
        && DataOf(rm) == r.data && refused == r.refused
        && state == r.state && lineNumber == r.lineNumber
    {
      lineNumber := 0;
      rm := new RoadMap();
      refused := [];
      var aborted := false;
      ghost var r0 := Start(state);
      var i := 0;
      while i < |lines| && !aborted
        invariant i <= |lines|
        invariant fresh(rm) && fresh(rm.graph) && rm.Valid() && rm.currentSource == None
        invariant ReadAll(r0, lines[..i], parse) == Reading(state, lineNumber, DataOf(rm), refused, aborted)
      {
        refused, aborted := ReadLine(rm, lines[i], parse, refused);
        ReadNext(r0, lines, i, parse);
        i := i + 1;
      }
      if aborted {
        AbortEndsRead(r0, lines[..i], lines[i..], parse);
        assert lines[..i] + lines[i..] == lines;
      } else {
        assert lines[..i] == lines;
      }
    }

    /**
     * The body of the line loop of `read`: count the line, skip it if it is a comment or
     * blank, otherwise process it trimmed and report it if that fails.
     */
    method ReadLine(rm: RoadMap, line: string, parse: string -> Option<real>, refused0: seq<nat>)
      returns (refused: seq<nat>, aborted: bool)
      requires rm.Valid() && rm.currentSource == None
      modifies this`state, this`lineNumber, rm.graph
      ensures rm.Valid() && rm.currentSource == None
      ensures WellData(old(DataOf(rm)))
      ensures Reading(state, lineNumber, DataOf(rm), refused, aborted)
           == Step(Reading(old(state), old(lineNumber), old(DataOf(rm)), refused0, false), line, parse)
    {
      ValidMapData(rm);
      refused, aborted := refused0, false;
      lineNumber := lineNumber + 1;
      if !Skipped(line) {
        var success, abort, outcome := ProcessLine(rm, Trim(line), parse);
        if abort {
          aborted := true;
        } else if !success {
          refused := refused + [lineNumber];
        }
      }
    }

    /** `processLine(line, map)`: the state switch or the parse the state calls for. */
    method ProcessLine(rm: RoadMap, line: string, parse: string -> Option<real>)
      returns (success: bool, abort: bool, ghost outcome: (ReadState, LineEffect))
      requires rm.Valid() && rm.currentSource == None
      modifies this`state, rm.graph
      ensures rm.Valid() && rm.currentSource == None
      ensures WellData(old(DataOf(rm))) && outcome == LineOutcome(old(state), old(DataOf(rm)), line, parse)
      ensures state == outcome.0 && (success <==> outcome.1.Ok?) && (abort <==> outcome.1.Aborted?)
      ensures DataOf(rm) == if success then outcome.1.data else old(DataOf(rm))
    {
      ValidMapData(rm);
      outcome := LineOutcome(state, DataOf(rm), line, parse);
      success, abort := false, false;
      if line == ".locations" {
        state := ReadLocations;
        success := true;
      } else if line == ".roads" {
        state := ReadRoads;
        success := true;
      } else if state == ReadLocations {
        success, abort := ParseLocation(rm, line, parse);
      } else if state == ReadRoads {
        success := ParseRoad(rm, line, parse);
      }
    }

    /** `parseLocation(line, map)`: a new point, a refused line, or the end of the read. */
    method ParseLocation(rm: RoadMap, line: string, parse: string -> Option<real>) returns (success: bool, abort: bool)
      requires rm.Valid() && rm.currentSource == None
      modifies rm.graph
      ensures rm.Valid() && rm.currentSource == None
      ensures success <==> LocationEffect(old(DataOf(rm)), line, parse).Ok?
      ensures abort <==> LocationEffect(old(DataOf(rm)), line, parse).Aborted?
      ensures success ==> DataOf(rm) == LocationEffect(old(DataOf(rm)), line, parse).data
      ensures !success ==> DataOf(rm) == old(DataOf(rm))
    {
      success, abort := false, false;
      var tokens := Tokens(line);
      if |tokens| != 4 {
        return;
      }
      var latitude := parse(tokens[2]);
      if latitude.None? {
        return;
      }
      var longitude := parse(tokens[3]);
      if longitude.None? {
        abort := true;
        return;
      }
      var point := rm.CreateAndAddPoint(tokens[0], tokens[1], latitude.value, longitude.value);
      success := point.Success?;
    }

    /** `parseRoad(line, map)`: a new road both ways, or a refused line. */
    method ParseRoad(rm: RoadMap, line: string, parse: string -> Option<real>) returns (success: bool)
      requires rm.Valid() && rm.currentSource == None
      modifies rm.graph
      ensures rm.Valid() && rm.currentSource == None
      ensures success <==> RoadEffect(old(DataOf(rm)), line, parse).Ok?
      ensures success ==> DataOf(rm) == RoadEffect(old(DataOf(rm)), line, parse).data
      ensures !success ==> DataOf(rm) == old(DataOf(rm))
    {
      var tokens := Tokens(line);
      if |tokens| != 3 || rm.graph.Vertex(tokens[0]).None? || rm.graph.Vertex(tokens[1]).None? {
        return false;
      }
      var dist := parse(tokens[2]);
      if dist.None? {
        return false;
      }
      rm.AddEdge(tokens[0], tokens[1], dist.value);
      success := true;
    }
  }
}
