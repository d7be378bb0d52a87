/**
 * The deathmatch of deathmatch.py: the ATTACKS table read from `text;power`
 * lines, the weighted ATTACK_PROBABILITIES, `calculate_damage`, and the
 * `do_deathmatch` loop in which two fighters starting at 100 health take
 * turns being hit until one drops below 1.
 *
 * Every random draw is an input: `Draws` gives, per turn, the index chosen in
 * ATTACK_PROBABILITIES, the 1-in-21 miss, the Infinity Gauntlet coin and the
 * damage roll, and per call the index chosen in ATTACKS.
 */
module Deathmatch {
  import opened Text
  import IdNameTable

  const DEATHMATCH_HEADER := "__**:anger:DEATHMATCH:anger:**__"
  const START_HEALTH: nat := 100
  /** Any power above this is a one-hit kill. */
  const MAX_POWER: nat := 10
  const KILL_DAMAGE: nat := 100

  // ---------------------------------------------------------------- ATTACKS

  /** The `(text, power)` pair of one line: its first two `;`-separated fields, if it has two. */
  function AttackOf(line: string): Option<(string, string)> {
    var parts := Split(line, ';');
    if |parts| >= 2 then Some((parts[0], parts[1])) else None
  }

  /** A line is kept exactly when it has a `;`; its text and power are the first two fields, which begin the line. */
  lemma AttackOfFields(line: string)
    ensures AttackOf(line).Some? <==> ';' in line
    ensures AttackOf(line).Some? ==>
      var (text, power) := AttackOf(line).value;
      ';' !in text && ';' !in power && text + [';'] + power <= line
  {
    var parts := Split(line, ';');
    SplitPieces(line, ';');
    JoinSplit(line, ';');
    CountPositive(line, ';');
    if |parts| >= 2 {
      assert Join(parts, ';') == parts[0] + [';'] + Join(parts[1..], ';');
      assert parts[1..][0] == parts[1];
      if |parts[1..]| > 1 {
        assert Join(parts[1..], ';') == parts[1] + [';'] + Join(parts[2..], ';');
      }
    }
  }

  lemma {:induction false} CountPositive(s: string, c: char)
    ensures Count(s, c) > 0 <==> c in s
  {
    if |s| > 0 {
      CountPositive(s[1..], c);
      assert s == [s[0]] + s[1..];
    }
  }

  /** ATTACKS: the pairs of the lines that have one, in file order. */
  function Attacks(lines: seq<string>): seq<(string, string)> {
    if |lines| == 0 then []
    else
      var last := AttackOf(lines[|lines| - 1]);
      Attacks(lines[..|lines| - 1]) + (if last.Some? then [last.value] else [])
  }

  /** The loop over `file_string`, skipping the lines whose unpacking raises. */
  method ReadAttacks(text: string) returns (attacks: seq<(string, string)>)
    ensures attacks == Attacks(IdNameTable.SplitLines(text))
  {
    var lines := IdNameTable.SplitLines(text);
    attacks := [];
    for i := 0 to |lines|
      invariant attacks == Attacks(lines[..i])
    {
      assert lines[..i + 1][..i] == lines[..i];
      var attack := AttackOf(lines[i]);
      if attack.Some? {
        attacks := attacks + [attack.value];
      }
    }
    assert lines[..|lines|] == lines;
  }

  // ---------------------------------------------------------------- powers and damage

  function Copies(v: nat, n: nat): (r: seq<nat>)
    ensures |r| == n && forall i :: 0 <= i < n ==> r[i] == v
  {
    seq(n, _ => v)
  }

  /** ATTACK_PROBABILITIES: power `p` listed as many times as its weight. */
  const ATTACK_PROBABILITIES: seq<nat> :=
    Copies(0, 5) + Copies(1, 25) + Copies(2, 22) + Copies(3, 18) + Copies(4, 15) + Copies(5, 12) +
    Copies(6, 9) + Copies(7, 6) + Copies(8, 4) + Copies(9, 3) + Copies(10, 2) + Copies(11, 1)

  /** 122 weighted entries, every one a power from 0 to 11; only the single 11 is a one-hit kill. */
  lemma ProbabilitiesRange()
    ensures |ATTACK_PROBABILITIES| == 122
    ensures forall i :: 0 <= i < |ATTACK_PROBABILITIES| ==> ATTACK_PROBABILITIES[i] <= MAX_POWER + 1
    ensures forall i :: 0 <= i < |ATTACK_PROBABILITIES| - 1 ==> ATTACK_PROBABILITIES[i] <= MAX_POWER
    ensures ATTACK_PROBABILITIES[|ATTACK_PROBABILITIES| - 1] == MAX_POWER + 1
  {
  }

  /** `calculate_damage(power)` with `roll` the draw of `random.randint(-power, power)`. */
  function Damage(power: nat, roll: int): (d: nat)
    ensures power == 0 ==> d == 0
    ensures power > MAX_POWER ==> d == KILL_DAMAGE
    ensures 1 <= power <= MAX_POWER && -(power as int) <= roll <= power ==> 2 * power <= d <= 4 * power
  {
    if power == 0 then 0
    else if power > MAX_POWER then KILL_DAMAGE
    else
      var damage := 3 * power + roll;
      if damage < 0 then 0 else damage
  }

  /** The damage of a drawn power is never more than 100: at most 40 from a roll, 100 from the 11. */
  lemma DamageAtMostKill(power: nat, roll: int)
    requires power <= MAX_POWER + 1
    requires 1 <= power <= MAX_POWER ==> -(power as int) <= roll <= power
    ensures Damage(power, roll) <= KILL_DAMAGE
    ensures Damage(power, roll) == 0 <==> power == 0
  {
  }

  // ---------------------------------------------------------------- the fight

  datatype Draws = Draws(
    power: nat -> nat,
    attack: nat -> nat,
    miss: nat -> bool,
    spare: nat -> bool,
    roll: (nat, nat) -> int)

  /** `random.choice` only picks indices in range, and `randint(-power, power)` only draws in range. */
  ghost predicate ValidDraws(w: Draws, attackCount: nat) {
    (forall t :: w.power(t) < |ATTACK_PROBABILITIES|) &&
    (forall k :: attackCount > 0 ==> w.attack(k) < attackCount) &&
    (forall t, p: nat :: -(p as int) <= w.roll(t, p) <= p)
  }

  /** The inner `while True` search for an attack of the drawn power. */
  datatype Pick = Chosen(text: string) | PickFailed | PickStalled

  /**
   * From the `k`-th draw in ATTACKS, at most `fuel` draws: an empty table is `random.choice`'s
   * IndexError and a power field `int` rejects is a ValueError.
   */
  function PickAttack(attacks: seq<(string, string)>, power: nat, w: Draws, k: nat, fuel: nat): (r: (Pick, nat))
    requires ValidDraws(w, |attacks|)
    ensures r.1 >= k
    decreases fuel
  {
    if fuel == 0 then (PickStalled, k)
    else if |attacks| == 0 then (PickFailed, k)
    else
      var a := attacks[w.attack(k)];
      match ParseNat(a.1)
      case None => (PickFailed, k + 1)
      case Some(v) => if v == power then (Chosen(a.0), k + 1) else PickAttack(attacks, power, w, k + 1, fuel - 1)
  }

  /** The chosen attack is one whose power field reads as the drawn power. */
  lemma {:induction false} PickedHasPower(attacks: seq<(string, string)>, power: nat, w: Draws, k: nat, fuel: nat)
    requires ValidDraws(w, |attacks|)
    ensures var (pick, _) := PickAttack(attacks, power, w, k, fuel);
      pick.Chosen? ==> exists i :: 0 <= i < |attacks| && attacks[i].0 == pick.text && ParseNat(attacks[i].1) == Some(power)
    decreases fuel
  {
    if fuel > 0 && |attacks| > 0 {
      var i := w.attack(k);
      var v := ParseNat(attacks[i].1);
      if v.Some? && v.value != power {
        PickedHasPower(attacks, power, w, k + 1, fuel - 1);
      }
    }
  }

  /** The damage of turn `t`: a miss one time in 21, Thanos sparing half the Infinity Gauntlet hits, else `calculate_damage`. */
  function Strike(power: nat, text: string, t: nat, w: Draws): nat
    requires ValidDraws(w, 0)
  {
    if w.miss(t) then 0
    else if Contains(text, "Infinity Gauntlet") && w.spare(t) then 0
    else Damage(power, w.roll(t, power))
  }

  /** Health after a hit, clamped at 0. */
  function Hit(health: nat, damage: nat): nat {
    if health < damage then 0 else health - damage
  }

  /** The attack line of a turn: names filled in, an arrow for the attacker, a miss if no damage came of a real attack. */
  function AttackText(text: string, damage: nat, power: nat, fighter1Turn: bool, fighter1: string, fighter2: string): string {
    var arrow := if fighter1Turn then ":arrow_right:" else ":arrow_left:";
    var attacker := if fighter1Turn then fighter1 else fighter2;
    var target := if fighter1Turn then fighter2 else fighter1;
    var line := arrow + Replace(Replace(text, "$P1", attacker), "$P2", target);
    var shown := if damage == 0 && power != 0 then line[..|line| - 1] + ", but it misses!" else line;
    shown + " It does " + NatToString(damage) + " damage.\n"
  }

  function Scoreboard(fighter1: string, health1: nat, fighter2: string, health2: nat): string {
    "**" + fighter1 + "**: " + NatToString(health1) + "/100\n**" + fighter2 + "**: " + NatToString(health2) + "/100"
  }

  function Trophy(winner: string, bet: Option<string>): string {
    "\n:trophy: **" + winner + " has won" + (if bet.Some? then " G$" + bet.value + "!**" else "!**")
  }

  /** The state of `do_deathmatch` between turns, and how many turns and ATTACKS draws it has taken. */
  datatype Fight = Fight(health1: nat, health2: nat, fighter1Turn: bool, previous: string, messages: seq<string>, turn: nat, picks: nat)

  datatype Outcome = Won(winner: string) | Crashed | Unfinished

  function Opening(fighter1: string, fighter2: string): Fight {
    Fight(START_HEALTH, START_HEALTH, false, "\n",
      [DEATHMATCH_HEADER + "\n\n\n\n" + Scoreboard(fighter1, START_HEALTH, fighter2, START_HEALTH)], 0, 0)
  }

  /** One turn: the fight after it, and the board message it appends. */
  function Turn(fighter1: string, fighter2: string, s: Fight, text: string, power: nat, w: Draws, picks: nat): (Fight, string)
    requires ValidDraws(w, 0)
  {
    var damage := Strike(power, text, s.turn, w);
    var health1 := if s.fighter1Turn then s.health1 else Hit(s.health1, damage);
    var health2 := if s.fighter1Turn then Hit(s.health2, damage) else s.health2;
    var current := AttackText(text, damage, power, s.fighter1Turn, fighter1, fighter2);
    var board := DEATHMATCH_HEADER + "\n\n" + s.previous + current + "\n" + Scoreboard(fighter1, health1, fighter2, health2);
    (Fight(health1, health2, !s.fighter1Turn, current, s.messages + [board], s.turn + 1, picks), board)
  }

  /** The `while True` loop of `do_deathmatch` for at most `fuel` turns (and `fuel` draws per attack search). */
  function Duel(fighter1: string, fighter2: string, bet: Option<string>, attacks: seq<(string, string)>, w: Draws, s: Fight, fuel: nat): (Fight, Outcome)
    requires ValidDraws(w, |attacks|)
    decreases fuel
  {
    if fuel == 0 then (s, Unfinished)
    else
      var power := ATTACK_PROBABILITIES[w.power(s.turn)];
      var (pick, k) := PickAttack(attacks, power, w, s.picks, fuel);
      match pick
      case PickStalled => (s.(picks := k), Unfinished)
      case PickFailed => (s.(picks := k), Crashed)
      case Chosen(text) =>
        var (next, board) := Turn(fighter1, fighter2, s, text, power, w, k);
        if next.health2 < 1 then (next.(messages := next.messages + [board + Trophy(fighter1, bet)]), Won(fighter1))
        else if next.health1 < 1 then (next.(messages := next.messages + [board + Trophy(fighter2, bet)]), Won(fighter2))
        else Duel(fighter1, fighter2, bet, attacks, w, next, fuel - 1)
  }

  /** Between turns: both alive, neither above 100, one board per turn after the opening, fighter1 hit on even turns. */
  predicate Between(s: Fight) {
    1 <= s.health1 <= START_HEALTH && 1 <= s.health2 <= START_HEALTH &&
    |s.messages| == s.turn + 1 && s.fighter1Turn == (s.turn % 2 == 1)
  }

  /**
   * What a run of the loop from `s` leaves: health stays in 0..100; a finished match has the
   * opening, one board per turn and one trophy board that extends the last turn's; fighter2's
   * death is checked first, so fighter1 wins whenever fighter2 is at 0; a match that has not
   * ended has both fighters alive.
   */
  predicate Ends(fighter1: string, fighter2: string, bet: Option<string>, s: Fight, f: Fight, o: Outcome) {
    f.health1 <= START_HEALTH && f.health2 <= START_HEALTH && f.turn >= s.turn && s.messages <= f.messages &&
    (o.Won? ==> |f.messages| == f.turn + 2 && f.turn > s.turn) &&
    (o.Won? ==> f.messages[|f.messages| - 1] == f.messages[|f.messages| - 2] + Trophy(o.winner, bet)) &&
    (o.Won? ==> (o.winner == fighter1 && f.health2 == 0) || (o.winner == fighter2 && f.health1 == 0 && f.health2 >= 1)) &&
    (!o.Won? ==> Between(f))
  }

  lemma {:induction false} DuelFacts(fighter1: string, fighter2: string, bet: Option<string>, attacks: seq<(string, string)>, w: Draws, s: Fight, fuel: nat)
    requires ValidDraws(w, |attacks|) && Between(s)
    ensures Ends(fighter1, fighter2, bet, s, Duel(fighter1, fighter2, bet, attacks, w, s, fuel).0, Duel(fighter1, fighter2, bet, attacks, w, s, fuel).1)
    decreases fuel, 0
  {
    var r := Duel(fighter1, fighter2, bet, attacks, w, s, fuel);
    if fuel > 0 {
      var power := ATTACK_PROBABILITIES[w.power(s.turn)];
      var (pick, k) := PickAttack(attacks, power, w, s.picks, fuel);
      if pick.Chosen? {
        var (next, board) := Turn(fighter1, fighter2, s, pick.text, power, w, k);
        TurnFacts(fighter1, fighter2, s, pick.text, power, w, k);
        if next.health2 < 1 {
          assert r == (next.(messages := next.messages + [board + Trophy(fighter1, bet)]), Won(fighter1));
          WinEnds(fighter1, fighter2, bet, s, next, board, true);
          assert Ends(fighter1, fighter2, bet, s, r.0, r.1);
        } else if next.health1 < 1 {
          assert r == (next.(messages := next.messages + [board + Trophy(fighter2, bet)]), Won(fighter2));
          WinEnds(fighter1, fighter2, bet, s, next, board, false);
          assert Ends(fighter1, fighter2, bet, s, r.0, r.1);
        } else {
          assert r == Duel(fighter1, fighter2, bet, attacks, w, next, fuel - 1);
          ContinueEnds(fighter1, fighter2, bet, attacks, w, s, next, board, fuel - 1);
          assert Ends(fighter1, fighter2, bet, s, r.0, r.1);
        }
      } else {
        assert r.0 == s.(picks := k) && !r.1.Won?;
        assert Ends(fighter1, fighter2, bet, s, r.0, r.1);
      }
    } else {
      assert Ends(fighter1, fighter2, bet, s, r.0, r.1);
    }
  }

  /** After a turn both survive, the rest of the match ends as `DuelFacts` says, counted from before the turn. */
  lemma {:induction false} ContinueEnds(fighter1: string, fighter2: string, bet: Option<string>, attacks: seq<(string, string)>, w: Draws, s: Fight, next: Fight, board: string, fuel: nat)
    requires ValidDraws(w, |attacks|) && Between(next) && next.turn == s.turn + 1 && next.messages == s.messages + [board]
    ensures Ends(fighter1, fighter2, bet, s, Duel(fighter1, fighter2, bet, attacks, w, next, fuel).0, Duel(fighter1, fighter2, bet, attacks, w, next, fuel).1)
    decreases fuel, 1
  {
    DuelFacts(fighter1, fighter2, bet, attacks, w, next, fuel);
    var rest := Duel(fighter1, fighter2, bet, attacks, w, next, fuel);
    assert s.messages <= next.messages;
    EndsExtend(fighter1, fighter2, bet, s, next, rest.0, rest.1);
  }

  /** A turn that kills ends the match with the trophy board. */
  lemma WinEnds(fighter1: string, fighter2: string, bet: Option<string>, s: Fight, next: Fight, board: string, first: bool)
    requires Between(s) && next.messages == s.messages + [board] && next.turn == s.turn + 1
    requires next.health1 <= s.health1 && next.health2 <= s.health2
    requires if first then next.health2 < 1 else next.health1 < 1 && next.health2 >= 1
    ensures var winner := if first then fighter1 else fighter2;
      Ends(fighter1, fighter2, bet, s, next.(messages := next.messages + [board + Trophy(winner, bet)]), Won(winner))
  {
    var winner := if first then fighter1 else fighter2;
    var f := next.(messages := next.messages + [board + Trophy(winner, bet)]);
    assert f.messages[|f.messages| - 2] == board;
  }

  /** The facts of the rest of a match carry back over one more surviving turn. */
  lemma EndsExtend(fighter1: string, fighter2: string, bet: Option<string>, s: Fight, next: Fight, f: Fight, o: Outcome)
    requires Ends(fighter1, fighter2, bet, next, f, o) && next.turn == s.turn + 1 && s.messages <= next.messages
    ensures Ends(fighter1, fighter2, bet, s, f, o)
  {
  }

  /** A turn adds one board, passes the move, and hits only the fighter whose turn it is not. */
  lemma TurnFacts(fighter1: string, fighter2: string, s: Fight, text: string, power: nat, w: Draws, picks: nat)
    requires ValidDraws(w, 0) && Between(s)
    ensures var (next, board) := Turn(fighter1, fighter2, s, text, power, w, picks);
      next.messages == s.messages + [board] && next.turn == s.turn + 1 &&
      next.fighter1Turn == (next.turn % 2 == 1) &&
      next.health1 <= s.health1 && next.health2 <= s.health2 &&
      (s.fighter1Turn ==> next.health1 == s.health1) && (!s.fighter1Turn ==> next.health2 == s.health2)
  {
  }

  /** The first turn hits fighter1, announced with fighter2's left arrow. */
  lemma FirstHitOnFighter1(fighter1: string, fighter2: string, text: string, power: nat, w: Draws)
    requires ValidDraws(w, 0)
    ensures var (next, _) := Turn(fighter1, fighter2, Opening(fighter1, fighter2), text, power, w, 0);
      next.health2 == START_HEALTH && next.health1 == Hit(START_HEALTH, Strike(power, text, 0, w)) && next.fighter1Turn
  {
  }

  /** A real attack that does no damage is reported as a miss: its last character gives way to ", but it misses!". */
  lemma MissReported(text: string, power: nat, fighter1Turn: bool, fighter1: string, fighter2: string)
    requires power != 0
    ensures var line := (if fighter1Turn then ":arrow_right:" else ":arrow_left:") +
        Replace(Replace(text, "$P1", if fighter1Turn then fighter1 else fighter2), "$P2", if fighter1Turn then fighter2 else fighter1);
      AttackText(text, 0, power, fighter1Turn, fighter1, fighter2) == line[..|line| - 1] + ", but it misses! It does 0 damage.\n"
  {
    assert NatToString(0) == "0";
  }

  // ---------------------------------------------------------------- the loop

  /** The inner `while True` search. */
  method ChooseAttack(attacks: seq<(string, string)>, power: nat, w: Draws, k: nat, fuel: nat) returns (pick: Pick, next: nat)
    requires ValidDraws(w, |attacks|)
    ensures (pick, next) == PickAttack(attacks, power, w, k, fuel)
  {
    next := k;
    var left: nat := fuel;
    while left > 0
      invariant left <= fuel
      invariant PickAttack(attacks, power, w, next, left) == PickAttack(attacks, power, w, k, fuel)
    {
      if |attacks| == 0 {
        return PickFailed, next;
      }
      var attack := attacks[w.attack(next)];
      next := next + 1;
      var value := ParseNat(attack.1);
      if value.None? {
        return PickFailed, next;
      }
      if value.value == power {
        return Chosen(attack.0), next;
      }
      left := left - 1;
    }
    pick := PickStalled;
  }

  /** `do_deathmatch`: the boards of the match, and how it ended. */
  method DoDeathmatch(fighter1: string, fighter2: string, bet: Option<string>, attacks: seq<(string, string)>, w: Draws, fuel: nat)
    returns (messages: seq<string>, outcome: Outcome)
    requires ValidDraws(w, |attacks|)
    ensures (messages, outcome) == (Duel(fighter1, fighter2, bet, attacks, w, Opening(fighter1, fighter2), fuel).0.messages,
                                    Duel(fighter1, fighter2, bet, attacks, w, Opening(fighter1, fighter2), fuel).1)
  {
    messages, outcome := Fighting(fighter1, fighter2, bet, attacks, w, Opening(fighter1, fighter2), fuel);
  }

  /** The `while True` loop of `do_deathmatch`, run from the state `start`. */
  method Fighting(fighter1: string, fighter2: string, bet: Option<string>, attacks: seq<(string, string)>, w: Draws, start: Fight, fuel: nat)
    returns (messages: seq<string>, outcome: Outcome)
    requires ValidDraws(w, |attacks|)
    ensures (messages, outcome) == (Duel(fighter1, fighter2, bet, attacks, w, start, fuel).0.messages,
                                    Duel(fighter1, fighter2, bet, attacks, w, start, fuel).1)
  {
    var s := start;
    var left: nat := fuel;
    while left > 0
      invariant left <= fuel
      invariant Duel(fighter1, fighter2, bet, attacks, w, s, left) == Duel(fighter1, fighter2, bet, attacks, w, start, fuel)
    {
      var stop, next;
      stop, next, messages, outcome := Round(fighter1, fighter2, bet, attacks, w, s, left);
      if stop {
        return;
      }
      s := next;
      left := left - 1;
    }
    messages, outcome := s.messages, Unfinished;
  }

  /** One pass of the loop: the boards and outcome when the match stops, else the state it goes on from. */
  method Round(fighter1: string, fighter2: string, bet: Option<string>, attacks: seq<(string, string)>, w: Draws, s: Fight, left: nat)
    returns (stop: bool, next: Fight, messages: seq<string>, outcome: Outcome)
    requires left > 0 && ValidDraws(w, |attacks|)
    ensures stop ==> (messages, outcome) == (Duel(fighter1, fighter2, bet, attacks, w, s, left).0.messages,
                                             Duel(fighter1, fighter2, bet, attacks, w, s, left).1)
    ensures !stop ==> Duel(fighter1, fighter2, bet, attacks, w, s, left) == Duel(fighter1, fighter2, bet, attacks, w, next, left - 1)
  {
    var power := ATTACK_PROBABILITIES[w.power(s.turn)];
    var pick, k := ChooseAttack(attacks, power, w, s.picks, left);
    if pick.PickStalled? {
      return true, s, s.messages, Unfinished;
    }
    if pick.PickFailed? {
      return true, s, s.messages, Crashed;
    }
    var board;
    next, board := Turn(fighter1, fighter2, s, pick.text, power, w, k).0, Turn(fighter1, fighter2, s, pick.text, power, w, k).1;
    if next.health2 < 1 {
      return true, next, next.messages + [board + Trophy(fighter1, bet)], Won(fighter1);
    }
    if next.health1 < 1 {
      return true, next, next.messages + [board + Trophy(fighter2, bet)], Won(fighter2);
    }
    stop, messages, outcome := false, [], Unfinished;
  }
}
