/**
 * The `users` table of the bot: one profile per user id, created on first
 * contact and updated by read-modify-write steps on a single row.  Dates are
 * day numbers; the current day is passed in as `today`.
 */
module Database {
  import opened Wrappers

  datatype Level = Beginner | Intermediate | Advanced

  /** The text stored in the `level` column. */
  function LevelName(l: Level): string {
    match l
    case Beginner => "Beginner"
    case Intermediate => "Intermediate"
    case Advanced => "Advanced"
  }

  function Rank(l: Level): nat {
    match l
    case Beginner => 0
    case Intermediate => 1
    case Advanced => 2
  }

  /** Lowest score at which a user is Intermediate, and Advanced. */
  const IntermediateFrom := 10
  const AdvancedFrom := 25

  /** One row of `users` without its key: (username, level, score, streak, last_active). */
  datatype Profile = Profile(username: string, level: Level, score: int, streak: int, lastActive: int)

  /** The level a score earns: a step function with steps at 10 and 25. */
  function LevelFor(score: int): (l: Level)
    ensures l == Beginner <==> score < IntermediateFrom
    ensures l == Advanced <==> AdvancedFrom <= score
  {
    if score < IntermediateFrom then Beginner
    else if score < AdvancedFrom then Intermediate
    else Advanced
  }

  lemma LevelForMonotone(a: int, b: int)
    requires a <= b
    ensures Rank(LevelFor(a)) <= Rank(LevelFor(b))
  {
  }

  lemma LevelForSteps()
    ensures LevelFor(0) == Beginner && LevelFor(9) == Beginner
    ensures LevelFor(10) == Intermediate && LevelFor(24) == Intermediate
    ensures LevelFor(25) == Advanced
  {
  }

  /** The row `add_user` inserts: Beginner, score 0, streak 0, last active today. */
  function NewProfile(username: string, today: int): (p: Profile)
    ensures p.username == username && p.level == Beginner && p.score == 0 && p.streak == 0
    ensures p.lastActive == today && Consistent(p)
  {
    Profile(username, Beginner, 0, 0, today)
  }

  /** The stored level is the one the stored score earns, and the counters are not negative. */
  predicate Consistent(p: Profile) {
    p.level == LevelFor(p.score) && p.score >= 0 && p.streak >= 0
  }

  /**
   * The streak state machine of `update_last_active_and_streak` on one row:
   * nothing changes if the user was already active today; a user active
   * yesterday extends the streak; anyone else (earlier, or a future date)
   * restarts it at 1.
   */
  function Touch(p: Profile, today: int): (q: Profile)
    ensures q.username == p.username && q.level == p.level && q.score == p.score
    ensures q.lastActive == today
    ensures p.lastActive == today ==> q == p
    ensures p.lastActive == today - 1 ==> q.streak == p.streak + 1
    ensures p.lastActive != today && p.lastActive != today - 1 ==> q.streak == 1
  {
    if p.lastActive == today then p
    else if p.lastActive == today - 1 then p.(streak := p.streak + 1, lastActive := today)
    else p.(streak := 1, lastActive := today)
  }

  lemma TouchIdempotent(p: Profile, today: int)
    ensures Touch(Touch(p, today), today) == Touch(p, today)
  {
  }

  /**
   * The quirk of `add_user`: a user created on day `d` already counts as
   * active on `d`, so answering on the creation day leaves the streak at 0,
   * while the first answer on any other day starts it at 1.
   */
  lemma CreationDayStreak(username: string, created: int, today: int)
    ensures created == today ==> Touch(NewProfile(username, created), today).streak == 0
    ensures created != today ==> Touch(NewProfile(username, created), today).streak == 1
  {
  }

  /** Active on day d, again on d, on d + 1, then after a gap on d + 3. */
  lemma StreakScenario(p: Profile, d: int)
    requires p.lastActive < d - 1 || p.lastActive > d
    ensures Touch(p, d).streak == 1
    ensures Touch(Touch(p, d), d).streak == 1
    ensures Touch(Touch(Touch(p, d), d), d + 1).streak == 2
    ensures Touch(Touch(Touch(Touch(p, d), d), d + 1), d + 3).streak == 1
  {
  }

  // The table-level effect of each operation.  Every one of them writes at
  // most the row of `id`, and none of them writes when that row is absent.

  /** `add_user`: insert a fresh row only when `id` has none. */
  function Added(users: map<int, Profile>, id: int, username: string, today: int): (r: map<int, Profile>)
    ensures r.Keys == users.Keys + {id}
    ensures forall k :: k in users ==> r[k] == users[k]
    ensures id !in users ==> r[id] == NewProfile(username, today)
  {
    if id in users then users else users[id := NewProfile(username, today)]
  }

  /** A second `add_user` for the same id changes nothing, whatever its name and day. */
  lemma AddedIdempotent(users: map<int, Profile>, id: int, n1: string, d1: int, n2: string, d2: int)
    ensures Added(Added(users, id, n1, d1), id, n2, d2) == Added(users, id, n1, d1)
  {
  }

  /** `increment_score`: the score of `id` grows by `delta`, nothing else changes. */
  function ScoreAdded(users: map<int, Profile>, id: int, delta: int): (r: map<int, Profile>)
    ensures r.Keys == users.Keys
    ensures forall k :: k in users && k != id ==> r[k] == users[k]
    ensures id !in users ==> r == users
    ensures id in users ==> r[id].score == users[id].score + delta
    ensures id in users ==> r[id].(score := users[id].score) == users[id]
  {
    if id in users then users[id := users[id].(score := users[id].score + delta)] else users
  }

  /** `update_last_active_and_streak`: the row of `id` takes one step of the streak machine. */
  function Touched(users: map<int, Profile>, id: int, today: int): (r: map<int, Profile>)
    ensures r.Keys == users.Keys
    ensures forall k :: k in users && k != id ==> r[k] == users[k]
    ensures id !in users ==> r == users
    ensures id in users && users[id].lastActive == today ==> r == users
    ensures id in users ==> r[id].lastActive == today
    ensures id in users ==> r[id].(streak := users[id].streak, lastActive := users[id].lastActive) == users[id]
    ensures id in users ==> r[id] == Touch(users[id], today)
  {
    if id in users then users[id := Touch(users[id], today)] else users
  }

  /** `set_level_by_score`: the level of `id` is recomputed from its score. */
  function Leveled(users: map<int, Profile>, id: int): (r: map<int, Profile>)
    ensures r.Keys == users.Keys
    ensures forall k :: k in users && k != id ==> r[k] == users[k]
    ensures id !in users ==> r == users
    ensures id in users ==> r[id].level == LevelFor(r[id].score)
    ensures id in users ==> r[id].(level := users[id].level) == users[id]
  {
    if id in users then users[id := users[id].(level := LevelFor(users[id].score))] else users
  }

  lemma LeveledIdempotent(users: map<int, Profile>, id: int)
    ensures Leveled(Leveled(users, id), id) == Leveled(users, id)
  {
  }

  /** The SQLite `users` table, held in memory. */
  class ProfileStore {
    var users: map<int, Profile>

    constructor ()
      ensures users == map[]
    {
      users := map[];
    }

    /** `get_user`: the row of `id`, or None. */
    function GetUser(id: int): (u: Option<Profile>)
      reads this
      ensures u.Some? <==> id in users
      ensures u.Some? ==> u.value == users[id]
    {
      if id in users then Some(users[id]) else None
    }

    method AddUser(id: int, username: string, today: int)
      modifies this
      ensures users == Added(old(users), id, username, today)
    {
      if GetUser(id).None? {
        users := users[id := NewProfile(username, today)];
      }
    }

    /** Returns the new score, or None (and writes nothing) for an unknown id. */
    method IncrementScore(id: int, delta: int) returns (newScore: Option<int>)
      modifies this
      ensures users == ScoreAdded(old(users), id, delta)
      ensures newScore.Some? <==> id in users
      ensures newScore.Some? ==> newScore.value == users[id].score
    {
      var u := GetUser(id);
      if u.None? {
        return None;
      }
      var s := u.value.score + delta;
      users := users[id := u.value.(score := s)];
      newScore := Some(s);
    }

    /** Returns the streak after the step, or None (and writes nothing) for an unknown id. */
    method UpdateLastActiveAndStreak(id: int, today: int) returns (streak: Option<int>)
      modifies this
      ensures users == Touched(old(users), id, today)
      ensures streak.Some? <==> id in users
      ensures streak.Some? ==> streak.value == users[id].streak
    {
      var u := GetUser(id);
      if u.None? {
        return None;
      }
      var last := u.value.lastActive;
      if last == today {
        return Some(u.value.streak);
      }
      var s;
      if last == today - 1 {
        s := u.value.streak + 1;
      } else {
        s := 1;
      }
      users := users[id := u.value.(streak := s, lastActive := today)];
      streak := Some(s);
    }

    /** Returns the level written, or Beginner (and writes nothing) for an unknown id. */
    method SetLevelByScore(id: int) returns (level: Level)
      modifies this
      ensures users == Leveled(old(users), id)
      ensures level == if id in users then users[id].level else Beginner
    {
      var u := GetUser(id);
      if u.None? {
        return Beginner;
      }
      var score := u.value.score;
      if score < IntermediateFrom {
        level := Beginner;
      } else if score < AdvancedFrom {
        level := Intermediate;
      } else {
        level := Advanced;
      }
      users := users[id := u.value.(level := level)];
    }
  }
}
