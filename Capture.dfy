/**
 * The home screen's video capture sessions. Each press of "Record" starts a
 * session with a fresh id and a time limit; flipping the camera while
 * recording or pressing "Stop" aborts the running session, and a flip
 * restarts recording with the time that was left. When the camera hands
 * back a result for a session, the video is filed under the project key
 * captured when that session started, unless the session was aborted, the
 * result has no uri, or no project and milestone were active.
 *
 * Session ids come from a counter (the source uses the clock); the camera
 * is an event source whose results arrive through `OnResult`.
 */
module Capture {
  import opened Wrappers
  import opened Progress

  datatype Facing = Back | Front

  /** What the recording continuation captured when its session started. */
  datatype Session = Session(project: int, milestone: int, projectName: string, planMode: bool)

  /** "Record 20s" for a plan video, "Record 10s" for an update. */
  function RecordLimit(planMode: bool): real {
    if planMode then 20.0 else 10.0
  }

  /**
   * The limit a flip restarts recording with: what was left of the limit,
   * but at least one second. Together with the time already filmed it
   * covers the original limit, and it never exceeds it (nor one second).
   */
  function Remaining(limitSeconds: real, elapsedSeconds: real): (r: real)
    ensures r >= 1.0
    ensures elapsedSeconds + r >= limitSeconds
    ensures elapsedSeconds >= 0.0 ==> r <= (if limitSeconds >= 1.0 then limitSeconds else 1.0)
    ensures r == 1.0 || r == limitSeconds - elapsedSeconds
  {
    if limitSeconds - elapsedSeconds >= 1.0 then limitSeconds - elapsedSeconds else 1.0
  }

  function Toggled(f: Facing): (g: Facing)
    ensures g != f
  {
    if f == Back then Front else Back
  }

  class CaptureSessions {
    var nextId: nat
    var sessionId: Option<nat>
    var aborted: set<nat>
    var startMs: int
    var limitSeconds: real
    var recording: bool
    var planMode: bool
    var facing: Facing
    var cameraVisible: bool
    var pending: map<nat, Session>

    /** Every id handed out so far is below the counter. */
    ghost predicate Valid()
      reads this
    {
      && (forall a :: a in aborted ==> a < nextId)
      && (forall id :: id in pending ==> id < nextId)
      && (sessionId.Some? ==> sessionId.value < nextId)
    }

    constructor ()
      ensures Valid() && sessionId == None && aborted == {} && pending == map[]
      ensures !recording && !planMode && facing == Back && !cameraVisible
    {
      nextId, sessionId, aborted, startMs, limitSeconds := 0, None, {}, 0, 0.0;
      recording, planMode, facing, cameraVisible, pending := false, false, Back, false, map[];
    }

    /**
     * `startRecording(limit)`: without a camera nothing happens. Otherwise a
     * fresh session id becomes the current one, its start time and limit are
     * recorded, the id is taken out of the aborted set (a no-op, as the id is
     * new), recording is on, and the continuation for the id remembers the
     * active project, milestone, project name and plan mode.
     */
    method Start(cameraReady: bool, limit: real, nowMs: int, project: int, milestone: int, projectName: string)
      returns (id: Option<nat>)
      requires Valid()
      modifies this
      ensures Valid()
      ensures !cameraReady ==> (id == None && nextId == old(nextId) && sessionId == old(sessionId)
        && pending == old(pending) && recording == old(recording) && startMs == old(startMs)
        && limitSeconds == old(limitSeconds))
      ensures cameraReady ==> id == Some(old(nextId)) && id.value !in old(pending) && id.value !in old(aborted)
      ensures cameraReady ==> sessionId == id && startMs == nowMs && limitSeconds == limit && recording
      ensures cameraReady ==> pending == old(pending)[id.value := Session(project, milestone, projectName, old(planMode))]
      ensures aborted == old(aborted)
      ensures planMode == old(planMode) && facing == old(facing) && cameraVisible == old(cameraVisible)
    {
      if !cameraReady {
        return None;
      }
      var newId := nextId;
      nextId := nextId + 1;
      sessionId := Some(newId);
      startMs := nowMs;
      limitSeconds := limit;
      aborted := aborted - {newId};
      recording := true;
      pending := pending[newId := Session(project, milestone, projectName, planMode)];
      id := Some(newId);
    }

    /**
     * "Record": a session is started with the limit of the current mode,
     * 20 seconds for a plan and 10 for an update.
     */
    method Record(cameraReady: bool, nowMs: int, project: int, milestone: int, projectName: string)
      returns (id: Option<nat>)
      requires Valid()
      modifies this
      ensures Valid()
      ensures cameraReady ==> id == Some(old(nextId)) && sessionId == id && recording && startMs == nowMs
      ensures cameraReady ==> limitSeconds == (if old(planMode) then 20.0 else 10.0)
      ensures cameraReady ==> pending == old(pending)[id.value := Session(project, milestone, projectName, old(planMode))]
      ensures !cameraReady ==> (id == None && sessionId == old(sessionId) && pending == old(pending)
        && recording == old(recording) && limitSeconds == old(limitSeconds))
      ensures aborted == old(aborted) && planMode == old(planMode) && facing == old(facing)
    {
      id := Start(cameraReady, RecordLimit(planMode), nowMs, project, milestone, projectName);
    }

    /** The "Plan" and "Update" choices: the next video is filmed as a plan, or as an update. */
    method ChooseMode(plan: bool)
      modifies this`planMode
      ensures planMode == plan
    {
      planMode := plan;
    }

    /** The prompt's film button: the camera is shown (permission requests are not modelled). */
    method OpenCamera()
      modifies this`cameraVisible
      ensures cameraVisible
    {
      cameraVisible := true;
    }

    /**
     * "Flip Camera": while recording, the running session is aborted, the
     * camera turns round, and recording is to restart (after a short delay)
     * with `max(1, limit - elapsed)` seconds; when not recording only the
     * camera turns round.
     */
    method Flip(nowMs: int) returns (restartLimit: Option<real>)
      requires Valid()
      modifies this`aborted, this`facing
      ensures Valid()
      ensures facing == Toggled(old(facing))
      ensures !recording ==> restartLimit == None && aborted == old(aborted)
      ensures recording ==> restartLimit == Some(Remaining(limitSeconds, (nowMs - startMs) as real / 1000.0))
      ensures recording && sessionId.Some? ==> aborted == old(aborted) + {sessionId.value}
      ensures recording && sessionId.None? ==> aborted == old(aborted)
    {
      if recording {
        var elapsed := (nowMs - startMs) as real / 1000.0;
        var remaining := Remaining(limitSeconds, elapsed);
        if sessionId.Some? {
          aborted := aborted + {sessionId.value};
        }
        facing := Toggled(facing);
        restartLimit := Some(remaining);
      } else {
        facing := Toggled(facing);
        restartLimit := None;
      }
    }

    /** "Stop": the running session is aborted and recording is off. */
    method Stop()
      requires Valid()
      modifies this`aborted, this`recording
      ensures Valid()
      ensures sessionId.Some? ==> aborted == old(aborted) + {sessionId.value}
      ensures sessionId.None? ==> aborted == old(aborted)
      ensures !recording
    {
      if sessionId.Some? {
        aborted := aborted + {sessionId.value};
      }
      recording := false;
    }

    /** "Close": the camera is hidden and plan mode ends. */
    method Close()
      modifies this`recording, this`cameraVisible, this`planMode
      ensures !recording && !cameraVisible && !planMode
    {
      recording := false;
      cameraVisible := false;
      planMode := false;
    }

    /**
     * The camera's result for session `id`. Recording is off either way and
     * the continuation is used up. A result with a non-empty uri, for a
     * session that had a project and milestone and was not aborted, is
     * filed under that session's key: as a plan (also the key's plan video
     * and the last plan) or as an update, on the current footstone of the
     * chain (one named after the project is made first when the chain is
     * empty); the camera then closes and plan mode ends. Any other result
     * changes nothing else.
     */
    method OnResult(id: nat, uri: Option<string>, progress: ProjectProgress) returns (routed: bool)
      requires Valid() && id in pending
      modifies this`recording, this`pending, this`cameraVisible, this`planMode
      modifies progress`footstones, progress`planVideos, progress`lastPlanUri
      ensures Valid()
      ensures !recording && pending == old(pending) - {id}
      ensures var s := old(pending[id]);
        routed <==> uri.Some? && uri.value != [] && s.project >= 0 && s.milestone >= 0 && id !in aborted
      ensures var s := old(pending[id]); var key := ProjectKey(s.project, s.milestone);
        routed ==> progress.footstones == old(progress.footstones)[key :=
          WithMedia(old(progress.Chain(key)), s.projectName, uri.value, if s.planMode then Plans else Updates)]
      ensures var s := old(pending[id]); var key := ProjectKey(s.project, s.milestone);
        routed && s.planMode ==> (progress.planVideos == old(progress.planVideos)[key := uri.value]
          && progress.lastPlanUri == uri)
      ensures var s := old(pending[id]);
        routed && !s.planMode ==> (progress.planVideos == old(progress.planVideos)
          && progress.lastPlanUri == old(progress.lastPlanUri))
      ensures routed ==> !cameraVisible && !planMode
      ensures !routed ==> (progress.footstones == old(progress.footstones)
        && progress.planVideos == old(progress.planVideos) && progress.lastPlanUri == old(progress.lastPlanUri)
        && cameraVisible == old(cameraVisible) && planMode == old(planMode))
    {
      var s := pending[id];
      pending := pending - {id};
      recording := false;
      if uri.None? || uri.value == [] || s.project < 0 || s.milestone < 0 {
        return false;
      }
      if id in aborted {
        return false;
      }
      progress.FileVideo(ProjectKey(s.project, s.milestone), s.projectName, uri.value, s.planMode);
      cameraVisible := false;
      planMode := false;
      routed := true;
    }
  }
}
