/**
 * The quiz logic of the bot: choosing the day's content for a user's level,
 * the answer key kept between the `/daily` command and the user's reply, and
 * the scoring of that reply, which drives the profile store.
 */
module Bot {
  import opened Wrappers
  import opened Text
  import opened Database

  /** A content entry as loaded from the JSON catalogs: an optional "level" tag and its text fields. */
  datatype Item = Item(level: Option<string>, fields: map<string, string>)

  /** `item.get(name)`. */
  function Field(item: Item, name: string): Option<string> {
    if name in item.fields then Some(item.fields[name]) else None
  }

  /** `item.get("level", default)`: the item's level tag, or the default when it has none. */
  function LevelOr(item: Item, default: string): string {
    if item.level.Some? then item.level.value else default
  }

  /** The filter of `choose_for_level`: the tag, defaulting to the wanted level, equals that level. */
  predicate Fits(item: Item, level: string)
    ensures Fits(item, level) <==> item.level.None? || item.level.value == level
  {
    LevelOr(item, level) == level
  }

  /** The list comprehension of `choose_for_level`: the items that fit, in catalog order. */
  function Candidates(items: seq<Item>, level: string): (r: seq<Item>)
    ensures |r| <= |items|
    ensures forall x :: x in r <==> x in items && Fits(x, level)
  {
    if items == [] then []
    else
      assert forall x :: x in items <==> x == items[0] || x in items[1..];
      (if Fits(items[0], level) then [items[0]] else []) + Candidates(items[1..], level)
  }

  /**
   * `choose_for_level`: one of the fitting items, or any item when none fits.
   * The random draw is the parameter `pick`.  An empty catalog is outside the
   * model (the source raises IndexError there).
   */
  function ChooseForLevel(items: seq<Item>, level: string, pick: nat): (r: Item)
    requires items != []
    ensures r in items
    ensures (exists x :: x in items && Fits(x, level)) ==> Fits(r, level)
  {
    var filtered := Candidates(items, level);
    var pool := if filtered != [] then filtered else items;
    pool[pick % |pool|]
  }

  /** Every item the policy allows is drawn for some pick: the choice excludes nothing it should not. */
  lemma ChooseForLevelReachesEvery(items: seq<Item>, level: string, x: Item)
    requires x in items
    requires Fits(x, level) || forall y :: y in items ==> !Fits(y, level)
    ensures exists pick: nat :: ChooseForLevel(items, level, pick) == x
  {
    var filtered := Candidates(items, level);
    var pool := if filtered != [] then filtered else items;
    if filtered != [] {
      assert filtered[0] in filtered;
      assert Fits(x, level);
    }
    var i := IndexOf(pool, x);
    SmallRemainder(i, |pool|);
    assert ChooseForLevel(items, level, i) == x;
  }

  lemma SmallRemainder(i: nat, n: nat)
    requires i < n
    ensures i % n == i
  {
  }

  /** The position of an element of a sequence. */
  function IndexOf<T(==)>(s: seq<T>, x: T): (i: nat)
    requires x in s
    ensures i < |s| && s[i] == x
  {
    if s[0] == x then 0 else 1 + IndexOf(s[1..], x)
  }

  /** Every item has all the named fields. */
  predicate AllHave(items: seq<Item>, names: set<string>) {
    forall x :: x in items ==> names <= x.fields.Keys
  }

  /** The four static collections loaded at startup. */
  datatype Catalog = Catalog(grammar: seq<Item>, vocabulary: seq<Item>, puzzles: seq<Item>, lessons: seq<Item>) {
    /**
     * What the daily handler relies on: no collection is empty, and every item
     * carries the fields the daily text reads (a question, a word with its
     * meaning and example, a lesson text).
     */
    predicate Loaded() {
      grammar != [] && vocabulary != [] && puzzles != [] && lessons != [] &&
      AllHave(grammar, {"q"}) && AllHave(vocabulary, {"word", "meaning", "example"}) &&
      AllHave(puzzles, {"q"}) && AllHave(lessons, {"text"})
    }
  }

  /** The four random draws of one `/daily` request. */
  datatype Picks = Picks(grammar: nat, vocabulary: nat, puzzle: nat, lesson: nat)

  /** The expected answers kept in the pending slot; the JSON value may be missing. */
  datatype AnswerKey = AnswerKey(grammar: Option<string>, puzzle: Option<string>)

  datatype Bundle = Bundle(grammar: Item, vocabulary: Item, puzzle: Item, lesson: Item)

  /** The daily bundle and its answer key; the presentation text is not modelled. */
  datatype Payload = Payload(bundle: Bundle, answers: AnswerKey)

  /** The level `format_daily_payload` selects for: the stored one, or Beginner for an unknown user. */
  function LevelOf(users: map<int, Profile>, uid: int): (level: string)
    ensures uid !in users ==> level == "Beginner"
    ensures uid in users ==> level == LevelName(users[uid].level)
  {
    if uid in users then LevelName(users[uid].level) else "Beginner"
  }

  /**
   * `format_daily_payload`: one item per category for the user's level, and
   * an answer key holding exactly the grammar and puzzle answers of that
   * bundle (vocabulary and lesson are not scored).
   */
  function DailyPayload(catalog: Catalog, users: map<int, Profile>, uid: int, picks: Picks): (p: Payload)
    requires catalog.Loaded()
    ensures p.bundle.grammar in catalog.grammar && p.bundle.vocabulary in catalog.vocabulary
    ensures p.bundle.puzzle in catalog.puzzles && p.bundle.lesson in catalog.lessons
    ensures (exists x :: x in catalog.grammar && Fits(x, LevelOf(users, uid))) ==> Fits(p.bundle.grammar, LevelOf(users, uid))
    ensures (exists x :: x in catalog.puzzles && Fits(x, LevelOf(users, uid))) ==> Fits(p.bundle.puzzle, LevelOf(users, uid))
    ensures (exists x :: x in catalog.vocabulary && Fits(x, LevelOf(users, uid))) ==> Fits(p.bundle.vocabulary, LevelOf(users, uid))
    ensures (exists x :: x in catalog.lessons && Fits(x, LevelOf(users, uid))) ==> Fits(p.bundle.lesson, LevelOf(users, uid))
    ensures p.answers == AnswerKey(Field(p.bundle.grammar, "answer"), Field(p.bundle.puzzle, "answer"))
  {
    var level := LevelOf(users, uid);
    var g := ChooseForLevel(catalog.grammar, level, picks.grammar);
    var v := ChooseForLevel(catalog.vocabulary, level, picks.vocabulary);
    var p := ChooseForLevel(catalog.puzzles, level, picks.puzzle);
    var l := ChooseForLevel(catalog.lessons, level, picks.lesson);
    Payload(Bundle(g, v, p, l), AnswerKey(Field(g, "answer"), Field(p, "answer")))
  }

  /** `str(value)` of an expected answer: a missing one reads as "None". */
  function Display(a: Option<string>): (r: string)
    ensures a.Some? ==> r == a.value
    ensures r == "None" <==> a == None || a == Some("None")
  {
    if a.Some? then a.value else "None"
  }

  /** One field of the reply is right when it equals the expected answer after lowercasing both. */
  predicate Matches(part: string, expected: Option<string>) {
    Lower(part) == Lower(Display(expected))
  }

  /** A field matches exactly when it equals the expected answer's text up to ASCII case. */
  lemma MatchesIgnoresCase(part: string, expected: Option<string>)
    ensures Matches(part, expected) <==> EqualIgnoringCase(part, Display(expected))
  {
    LowerEqualIff(part, Display(expected));
  }

  /** The points a reply earns: one per field that matches its expected answer. */
  function Gained(key: AnswerKey, grammarPart: string, puzzlePart: string): (g: nat)
    ensures g <= 2
    ensures g == 2 <==> Matches(grammarPart, key.grammar) && Matches(puzzlePart, key.puzzle)
    ensures g == 0 <==> !Matches(grammarPart, key.grammar) && !Matches(puzzlePart, key.puzzle)
  {
    (if Matches(grammarPart, key.grammar) then 1 else 0) + (if Matches(puzzlePart, key.puzzle) then 1 else 0)
  }

  /**
   * The two fields of a reply: the stripped message split at its first `||`,
   * each part stripped again.  None when the stripped message has no `||`.
   */
  function ParseReply(message: string): (r: Option<(string, string)>)
    ensures r.None? <==> !ContainsSep(Trim(message))
    ensures r.Some? ==> Stripped(r.value.0) && Stripped(r.value.1)
  {
    match SplitFirst(Trim(message))
    case None => None
    case Some((g, p)) => Some((Trim(g), Trim(p)))
  }

  /**
   * The fields of a reply are what stands before its first `||` and after it,
   * without surrounding whitespace; a later `||` belongs to the puzzle field
   * and an empty field is accepted.
   */
  lemma ParseReplyFields(pre: string, a: string, b: string, post: string)
    requires AllSpace(pre) && AllSpace(post)
    requires a == [] || !IsSpace(a[0])
    requires b == [] || !IsSpace(b[|b| - 1])
    requires !ContainsSep(a + "|")
    ensures ParseReply(pre + a + "||" + b + post) == Some((Trim(a), Trim(b)))
  {
    var s := a + "||" + b;
    assert Stripped(s);
    assert pre + a + "||" + b + post == pre + s + post;
    TrimPadded(pre, s, post);
    SplitJoin(a, b);
  }

  /** Matching ignores case and surrounding whitespace: "  b ||   answer1  " earns both points for ("B", "Answer1"). */
  lemma FullCreditExample()
    ensures var r := ParseReply("  b ||   answer1  ");
      r.Some? && Gained(AnswerKey(Some("B"), Some("Answer1")), r.value.0, r.value.1) == 2
  {
    ExampleSplits();
    ParseReplyFields("  ", "b ", "   answer1", "  ");
    ExampleFieldsTrim();
    ExampleFieldsMatch();
  }

  lemma ExampleSplits()
    ensures "  b ||   answer1  " == "  " + "b " + "||" + "   answer1" + "  "
    ensures AllSpace("  ") && !ContainsSep("b " + "|")
  {
    var message, joined := "  b ||   answer1  ", "  " + "b " + "||" + "   answer1" + "  ";
    assert |joined| == |message| == 18;
    forall i | 0 <= i < 18 ensures joined[i] == message[i] {}
  }

  lemma ExampleFieldsTrim()
    ensures Trim("b ") == "b" && Trim("   answer1") == "answer1"
  {
    TrimPadded([], "b", " ");
    assert [] + "b" + " " == "b ";
    TrimPadded("   ", "answer1", []);
    assert "   " + "answer1" + [] == "   answer1";
  }

  lemma ExampleFieldsMatch()
    ensures Lower("b") == Lower("B") && Lower("answer1") == Lower("Answer1")
  {
    assert LowerChar('B') == 'b';
    var a, b := Lower("answer1"), Lower("Answer1");
    assert LowerChar('A') == 'a';
    forall i | 0 <= i < 7 ensures a[i] == b[i] {}
  }

  /** What the bot says back to a free-text message. */
  datatype Reply =
    | NoQuiz          // no pending answer key: "No quiz found"
    | WrongFormat     // no `||` in the reply
    | Checked(gained: nat, score: int, level: Level, streak: int)
    | Failed          // the user has no row: the handler raises before replying

  /** A reply and the state it leaves: the profile table and the pending answer keys. */
  datatype Outcome = Outcome(reply: Reply, users: map<int, Profile>, pending: map<int, AnswerKey>)

  /**
   * The writes `check_answer` makes for a well-formed reply: score and level
   * only when something was gained, the streak step always.
   */
  function Settle(users: map<int, Profile>, uid: int, gained: nat, today: int): (r: map<int, Profile>)
    ensures r.Keys == users.Keys
    ensures forall k :: k in users && k != uid ==> r[k] == users[k]
    ensures uid in users ==> r[uid].score == users[uid].score + gained
    ensures uid in users ==> r[uid].streak == Touch(users[uid], today).streak && r[uid].lastActive == today
    ensures uid in users ==> r[uid].username == users[uid].username
    ensures uid in users && gained > 0 ==> r[uid].level == LevelFor(r[uid].score)
    ensures uid in users && gained == 0 ==> r[uid].level == users[uid].level
  {
    var scored := if gained > 0 then Leveled(ScoreAdded(users, uid, gained), uid) else users;
    Touched(scored, uid, today)
  }

  /** A user's row stays consistent through the writes of a scored reply. */
  lemma SettleConsistent(users: map<int, Profile>, uid: int, gained: nat, today: int)
    requires uid in users && Consistent(users[uid])
    ensures Consistent(Settle(users, uid, gained, today)[uid])
  {
    var scored := if gained > 0 then Leveled(ScoreAdded(users, uid, gained), uid) else users;
    assert scored[uid].streak == users[uid].streak;
  }

  /** `check_answer` as a function of the state it reads. */
  function Evaluate(users: map<int, Profile>, pending: map<int, AnswerKey>, uid: int, message: string, today: int): (o: Outcome)
    ensures uid !in pending ==> o == Outcome(NoQuiz, users, pending)
    ensures uid in pending && !ContainsSep(Trim(message)) ==> o == Outcome(WrongFormat, users, pending)
    ensures o.reply.Failed? <==> uid in pending && ContainsSep(Trim(message)) && uid !in users
    ensures o.reply.Failed? ==> o.users == users && o.pending == pending
    ensures o.users.Keys == users.Keys
    ensures forall k :: k in users && k != uid ==> o.users[k] == users[k]
    ensures o.reply.Checked? ==> o.pending == pending - {uid}
    ensures o.reply.Checked? ==> o.reply.gained <= 2 && uid in users
    ensures o.reply.Checked? ==> o.users[uid].score == users[uid].score + o.reply.gained == o.reply.score
    ensures o.reply.Checked? ==> o.users[uid].level == o.reply.level && o.users[uid].streak == o.reply.streak
    ensures o.reply.Checked? ==> o.users[uid].lastActive == today
  {
    var parsed := ParseReply(message);
    if uid !in pending then Outcome(NoQuiz, users, pending)
    else if parsed.None? then Outcome(WrongFormat, users, pending)
    else if uid !in users then Outcome(Failed, users, pending)
    else
      var gained := Gained(pending[uid], parsed.value.0, parsed.value.1);
      var after := Settle(users, uid, gained, today);
      Outcome(Checked(gained, after[uid].score, after[uid].level, after[uid].streak), after, pending - {uid})
  }

  /** The outcome of a well-formed reply, spelled out. */
  lemma EvaluateWellFormed(users: map<int, Profile>, pending: map<int, AnswerKey>, uid: int, message: string, today: int, g: string, p: string)
    requires uid in pending && ParseReply(message) == Some((g, p))
    ensures uid !in users ==> Evaluate(users, pending, uid, message, today) == Outcome(Failed, users, pending)
    ensures uid in users ==>
      var after := Settle(users, uid, Gained(pending[uid], g, p), today);
      Evaluate(users, pending, uid, message, today) ==
      Outcome(Checked(Gained(pending[uid], g, p), after[uid].score, after[uid].level, after[uid].streak), after, pending - {uid})
  {
  }

  /** Every pending key belongs to a known user, and every row is consistent. */
  predicate Invariant(users: map<int, Profile>, pending: map<int, AnswerKey>) {
    pending.Keys <= users.Keys && forall k :: k in users ==> Consistent(users[k])
  }

  /** Under the invariant a reply never hits the missing-row failure, and the invariant survives it. */
  lemma EvaluatePreservesInvariant(users: map<int, Profile>, pending: map<int, AnswerKey>, uid: int, message: string, today: int)
    requires Invariant(users, pending)
    ensures !Evaluate(users, pending, uid, message, today).reply.Failed?
    ensures var o := Evaluate(users, pending, uid, message, today); Invariant(o.users, o.pending)
  {
    var o := Evaluate(users, pending, uid, message, today);
    if o.reply.Checked? {
      SettleConsistent(users, uid, o.reply.gained, today);
      assert o.users == Settle(users, uid, o.reply.gained, today);
      forall k | k in o.users
        ensures Consistent(o.users[k])
      {
        if k != uid {
          assert o.users[k] == users[k];
        }
      }
    }
  }

  /** Issuing a quiz (`add_user`, then a new pending key for the same user) keeps the invariant. */
  lemma IssueKeepsInvariant(users: map<int, Profile>, pending: map<int, AnswerKey>, uid: int, username: string, today: int, key: AnswerKey)
    requires Invariant(users, pending)
    ensures Invariant(Added(users, uid, username, today), pending[uid := key])
  {
    var after := Added(users, uid, username, today);
    forall k | k in after
      ensures Consistent(after[k])
    {
      if k in users {
        assert after[k] == users[k];
      }
    }
  }

  /** A reply changes neither another user's row nor another user's pending key. */
  lemma EvaluateIsolatesUsers(users: map<int, Profile>, pending: map<int, AnswerKey>, uid: int, message: string, today: int, other: int)
    requires other != uid
    ensures var o := Evaluate(users, pending, uid, message, today);
      (other in o.users <==> other in users) && (other in users ==> o.users[other] == users[other]) &&
      (other in o.pending <==> other in pending) && (other in pending ==> o.pending[other] == pending[other])
  {
  }

  /** The bot process: the shared store, the loaded catalog, and the per-user pending answer keys. */
  class Tutor {
    const store: ProfileStore
    const catalog: Catalog
    var pending: map<int, AnswerKey>

    ghost predicate Valid()
      reads this, store
    {
      Invariant(store.users, pending)
    }

    constructor (store: ProfileStore, catalog: Catalog)
      ensures this.store == store && this.catalog == catalog && pending == map[]
      ensures (forall k :: k in store.users ==> Consistent(store.users[k])) ==> Valid()
    {
      this.store := store;
      this.catalog := catalog;
      pending := map[];
    }

    /** `/start`: make sure the caller has a profile. */
    method Start(uid: int, username: string, today: int)
      modifies store
      ensures store.users == Added(old(store.users), uid, username, today)
      ensures old(Valid()) ==> Valid()
    {
      store.AddUser(uid, username, today);
    }

    /** `/daily`: create the profile if needed, issue a bundle and store its answer key, replacing any earlier one. */
    method Daily(uid: int, username: string, today: int, picks: Picks) returns (payload: Payload)
      requires catalog.Loaded()
      modifies this, store
      ensures store.users == Added(old(store.users), uid, username, today)
      ensures payload == DailyPayload(catalog, store.users, uid, picks)
      ensures pending == old(pending)[uid := payload.answers]
      ensures old(Valid()) ==> Valid()
    {
      ghost var users0, pending0 := store.users, pending;
      store.AddUser(uid, username, today);
      payload := DailyPayload(catalog, store.users, uid, picks);
      pending := pending[uid := payload.answers];
      if old(Valid()) {
        IssueKeepsInvariant(users0, pending0, uid, username, today, payload.answers);
      }
    }

    /** The scoring lines of `check_answer`: one point per field that matches its expected answer. */
    static method Score(correct: AnswerKey, grammarPart: string, puzzlePart: string) returns (gained: nat)
      ensures gained == Gained(correct, grammarPart, puzzlePart)
    {
      gained := 0;
      if Matches(grammarPart, correct.grammar) {
        gained := gained + 1;
      }
      if Matches(puzzlePart, correct.puzzle) {
        gained := gained + 1;
      }
    }

    /** The database writes of a scored reply, in the order `check_answer` makes them, and the row read back. */
    method Record(uid: int, gained: nat, today: int) returns (user: Option<Profile>, streak: int)
      modifies store
      ensures store.users == Settle(old(store.users), uid, gained, today)
      ensures user == store.GetUser(uid)
      ensures user.Some? ==> streak == user.value.streak
    {
      ghost var users0 := store.users;
      if gained > 0 {
        var _ := store.IncrementScore(uid, gained);
        var _ := store.SetLevelByScore(uid);
      }
      var touched := store.UpdateLastActiveAndStreak(uid, today);
      assert store.users == Settle(users0, uid, gained, today);
      user := store.GetUser(uid);
      streak := if touched.Some? then touched.value else 0;
    }

    /** A free-text message: score it against the pending key and update the profile. */
    method CheckAnswer(uid: int, message: string, today: int) returns (reply: Reply)
      modifies this, store
      ensures Outcome(reply, store.users, pending) == Evaluate(old(store.users), old(pending), uid, message, today)
      ensures old(Valid()) ==> Valid() && !reply.Failed?
    {
      ghost var users0, pending0 := store.users, pending;
      if uid !in pending {
        return NoQuiz;
      }
      var parts := ParseReply(message);
      if parts.None? {
        return WrongFormat;
      }
      var grammarPart, puzzlePart := parts.value.0, parts.value.1;
      var correct := pending[uid];
      var gained := Score(correct, grammarPart, puzzlePart);
      var user, streak := Record(uid, gained, today);
      EvaluateWellFormed(users0, pending0, uid, message, today, grammarPart, puzzlePart);
      if user.None? {
        return Failed;
      }
      reply := Checked(gained, user.value.score, user.value.level, streak);
      pending := pending - {uid};
      if old(Valid()) {
        EvaluatePreservesInvariant(users0, pending0, uid, message, today);
      }
    }
  }
}
