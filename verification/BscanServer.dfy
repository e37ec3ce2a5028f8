/** The waypoints of the B-scan server: pushed as rotation vectors, run as roll-pitch-yaw angles. */
module BscanServer {
  import opened Rotation
  import opened Trigonometry
  import opened EulerAngles
  import opened RotationVector

  const POSES := 100

  datatype Pose = Pose(xyz: Vec, kps: Vec)

  /** Position in entries 0 to 2, orientation in entries 3 to 5. */
  predicate IsWaypoint(w: seq<real>) {
    |w| >= 6
  }

  function Position(w: seq<real>): Vec
    requires IsWaypoint(w)
  {
    Vec(w[0], w[1], w[2])
  }

  function Orientation(w: seq<real>): Vec
    requires IsWaypoint(w)
  {
    Vec(w[3], w[4], w[5])
  }

  function WithOrientation(w: seq<real>, a: Vec): (v: seq<real>)
    requires IsWaypoint(w)
    ensures IsWaypoint(v) && Position(v) == Position(w) && Orientation(v) == a
  {
    w[3 := a.x][4 := a.y][5 := a.z]
  }

  /** One waypoint after the loop. */
  function Converted(t: Trig, w: seq<real>): (v: seq<real>)
    requires Laws(t) && IsWaypoint(w)
    ensures IsWaypoint(v)
  {
    WithOrientation(w, ToEuler(t, FromRotationVector(t, Orientation(w))))
  }

  class BscanServer {
    var serverData: seq<seq<real>>

    constructor ()
      ensures serverData == []
    {
      serverData := [];
    }

    /**
     * The loop that state_server starts with. The pose buffer holds POSES entries
     * and the code does not look at the number of waypoints: with more of them the
     * loop converts one more and writes behind the buffer, where the model stops.
     */
    method ConvertWaypoints(t: Trig) returns (rpose: array<Pose>, overrun: bool)
      requires Laws(t)
      requires forall i :: 0 <= i < |serverData| ==> IsWaypoint(serverData[i])
      modifies this
      ensures fresh(rpose) && rpose.Length == 100
      ensures overrun <==> |old(serverData)| > 100
      ensures |serverData| == |old(serverData)|
      ensures forall i :: 0 <= i < |serverData| ==>
        serverData[i] == if i <= 100 then Converted(t, old(serverData)[i]) else old(serverData)[i]
      ensures forall i :: 0 <= i < |serverData| && i < 100 ==>
        rpose[i] == Pose(Position(old(serverData)[i]), Orientation(Converted(t, old(serverData)[i])))
    {
      var origin := Vec(0.0, 0.0, 0.0);
      rpose := new Pose[POSES](_ => Pose(origin, origin));
      overrun := false;
      var i, num := 0, |serverData|;
      ghost var was := serverData;
      while i < num
        invariant 0 <= i <= num == |serverData| == |was| && i <= POSES
        invariant forall j :: 0 <= j < i ==>
          serverData[j] == Converted(t, was[j]) && rpose[j] == Pose(Position(was[j]), Orientation(serverData[j]))
        invariant forall j :: i <= j < num ==> serverData[j] == was[j]
      {
        var w := serverData[i];
        var r := FromRotationVector(t, Orientation(w));
        var a := ToEuler(t, r);
        w := WithOrientation(w, a);
        serverData := serverData[i := w];
        if i == POSES { return rpose, true; }
        rpose[i] := Pose(Position(w), Orientation(w));
        i := i + 1;
      }
    }
  }

  // ---- one pass keeps the pose ----

  /** The rotation a pushed waypoint means, and the one a converted waypoint means. */
  function Pushed(t: Trig, w: seq<real>): Mat
    requires IsWaypoint(w)
  {
    FromRotationVector(t, Orientation(w))
  }

  function Driven(t: Trig, w: seq<real>): Mat
    requires IsWaypoint(w)
  {
    FromEuler(t, Orientation(w))
  }

  /** The branch of the conversion that replaces the pitch although the rotation is not vertical. */
  predicate InsideWindow(t: Trig, r: Mat) {
    NearVertical(t, r) && !(r.r00 == 0.0 && r.r10 == 0.0)
  }

  /** One pass keeps position and orientation of every waypoint outside the window, and of no other. Only the entries
      3 to 5, which held a rotation vector, change, and then they hold roll, pitch and yaw. */
  lemma OnePassKeepsPose(t: Trig, w: seq<real>)
    requires Laws(t) && IsWaypoint(w)
    ensures var v := Converted(t, w);
            |v| == |w| && v[..3] == w[..3] && v[6..] == w[6..]
            && Pushed(t, w) == FromRotationVector(t, Vec(w[3], w[4], w[5]))
            && Driven(t, v) == FromEuler(t, Vec(v[3], v[4], v[5]))
    ensures Driven(t, Converted(t, w)) == Pushed(t, w) <==> !InsideWindow(t, Pushed(t, w))
  {
    hide Laws, FromRotationVector, ToEuler, NearVertical, FromEuler;
    FromRotationVectorIsRotation(t, Orientation(w));
    EulerRoundTrip(t, Pushed(t, w));
    WindowWidth(t, Pushed(t, w));
  }

  // ---- reported poses can be pushed back ----

  /** The orientation the feedback reports for the current roll-pitch-yaw angles. */
  function Reported(t: Trig, a: Vec): Vec
    requires Laws(t)
  {
    FromEulerIsRotation(t, a);
    ToRotationVector(t, FromEuler(t, a))
  }

  predicate OutsideTurnWindows(r: Mat) {
    CosineOfAngle(r) == 1.0 || CosineOfAngle(r) == -1.0
    || -1.0 + 0.000000000001 <= CosineOfAngle(r) <= 1.0 - 0.000000000001
  }

  /** A reported orientation, pushed as a waypoint, means the current rotation exactly outside the windows of the
      conversion to a rotation vector. */
  lemma ReportedMeans(t: Trig, a: Vec, w: seq<real>)
    requires Laws(t) && IsWaypoint(w) && Orientation(w) == Reported(t, a)
    ensures Pushed(t, w) == FromEuler(t, a) <==> OutsideTurnWindows(FromEuler(t, a))
  {
    hide Laws, FromRotationVector, FromEuler, ToRotationVector;
    FromEulerIsRotation(t, a);
    RotationVectorRoundTrip(t, FromEuler(t, a));
  }

  /** Where it does, the waypoint then drives the robot back exactly when the rotation is outside the window of the
      conversion to angles. */
  lemma ReportedDrivesBack(t: Trig, a: Vec, w: seq<real>)
    requires Laws(t) && IsWaypoint(w) && Orientation(w) == Reported(t, a)
    requires OutsideTurnWindows(FromEuler(t, a))
    ensures Driven(t, Converted(t, w)) == FromEuler(t, a) <==> !InsideWindow(t, FromEuler(t, a))
  {
    hide Laws, FromRotationVector, ToEuler, NearVertical, FromEuler, ToRotationVector;
    ReportedMeans(t, a, w);
    OnePassKeepsPose(t, w);
  }
}
