/** The pure helpers of the client's presentation: the message of the phase-result overlay,
    the face shown for a card number and the style of a seed. */
module Presentation {
  import opened Wrappers
  import opened Snapshots

  // ---------------------------------------------------------------------------------------
  // The phase-result message

  /** A player who lost a life this phase: still in the game, guessed, and won a different
      number of hands. */
  predicate Missed(p: SnapPlayer)
  {
    !p.isEliminated && p.guess.Some? && p.guess.value != p.turnsWon
  }

  /** The players `showPhaseResult` pushes into `eliminatedPlayers`, in snapshot order. */
  function EliminatedOf(ps: seq<SnapPlayer>): seq<SnapPlayer>
  {
    if ps == [] then []
    else EliminatedOf(ps[..|ps| - 1]) + (if ps[|ps| - 1].isEliminated then [ps[|ps| - 1]] else [])
  }

  /** The players `showPhaseResult` pushes into `playersWhoLost`, in snapshot order. */
  function LosersOf(ps: seq<SnapPlayer>): seq<SnapPlayer>
  {
    if ps == [] then []
    else
      var p := ps[|ps| - 1];
      LosersOf(ps[..|ps| - 1]) + (if Missed(p) then [p] else [])
  }

  /** The eliminated list holds exactly the eliminated players, the losers list exactly the
      players who missed, each in snapshot order; no player is in both. */
  lemma {:induction false} PartitionMembers(ps: seq<SnapPlayer>)
    ensures forall p :: p in EliminatedOf(ps) <==> p in ps && p.isEliminated
    ensures forall p :: p in LosersOf(ps) <==> p in ps && Missed(p)
    ensures forall p :: !(p in EliminatedOf(ps) && p in LosersOf(ps))
    ensures |EliminatedOf(ps)| + |LosersOf(ps)| <= |ps|
  {
    if ps != [] {
      var q := ps[..|ps| - 1];
      PartitionMembers(q);
      assert ps == q + [ps[|ps| - 1]];
    }
  }

  /** The `forEach` of `showPhaseResult`: splits the players into the eliminated ones and those
      who lost a life. */
  method PartitionPlayers(ps: seq<SnapPlayer>) returns (lost: seq<SnapPlayer>, eliminated: seq<SnapPlayer>)
    ensures lost == LosersOf(ps) && eliminated == EliminatedOf(ps)
  {
    lost := [];
    eliminated := [];
    var i := 0;
    while i < |ps|
      invariant 0 <= i <= |ps|
      invariant lost == LosersOf(ps[..i]) && eliminated == EliminatedOf(ps[..i])
    {
      assert ps[..i + 1][..i] == ps[..i];
      var p := ps[i];
      if p.isEliminated {
        eliminated := eliminated + [p];
      } else if p.guess.Some? && p.guess.value != p.turnsWon {
        lost := lost + [p];
      }
      i := i + 1;
    }
    assert ps[..i] == ps;
  }

  function Names(ps: seq<SnapPlayer>): (r: seq<string>)
    ensures |r| == |ps| && forall k :: 0 <= k < |ps| ==> r[k] == ps[k].name
  {
    seq(|ps|, k requires 0 <= k < |ps| => ps[k].name)
  }

  /** `Array.prototype.join(sep)`. */
  function Join(ss: seq<string>, sep: string): string
  {
    if |ss| == 0 then "" else if |ss| == 1 then ss[0] else ss[0] + sep + Join(ss[1..], sep)
  }

  /** What the overlay says: its heading, the sentence under it and the phase number shown. */
  datatype PhaseMessage = PhaseMessage(title: string, details: string, phaseNumber: int)

  const EliminatedTitle: string := "Players Eliminated!"
  const CompleteTitle: string := "Phase Complete!"
  const AllCorrect: string := "All players guessed correctly!"
  const HasEliminated: string := " has been eliminated from the game!"
  const HaveEliminated: string := " have been eliminated from the game!"
  const LostALife: string := " lost a life this phase!"
  const LostLives: string := " lost lives this phase!"

  /** The message of the overlay for the given lists, in the source's order of precedence:
      eliminations first, then lost lives, then the all-correct message. */
  function MessageFrom(lost: seq<SnapPlayer>, eliminated: seq<SnapPlayer>, phaseIndex: int): PhaseMessage
  {
    if |eliminated| > 0 then
      PhaseMessage(EliminatedTitle,
                   Join(Names(eliminated), ", ") +
                   (if |eliminated| == 1 then HasEliminated else HaveEliminated), phaseIndex + 1)
    else if |lost| > 0 then
      PhaseMessage(CompleteTitle,
                   Join(Names(lost), ", ") +
                   (if |lost| == 1 then LostALife else LostLives), phaseIndex + 1)
    else PhaseMessage(CompleteTitle, AllCorrect, phaseIndex + 1)
  }

  /** The message of the overlay `showPhaseResult(game)` puts up. */
  function PhaseMessageOf(g: Snapshot): PhaseMessage
  {
    MessageFrom(LosersOf(g.players), EliminatedOf(g.players), g.currentPhaseIndex)
  }

  predicate EndsWith(s: string, suffix: string)
  {
    |suffix| <= |s| && s[|s| - |suffix|..] == suffix
  }

  /** The overlay's three cases: any eliminated player (even one eliminated in an earlier
      phase) makes it the elimination message; otherwise it names who lost a life, if anyone;
      only when nobody is eliminated and nobody missed does it say all guessed correctly. The
      phase number is the index plus one. */
  lemma PhaseMessageCases(g: Snapshot)
    ensures var m := PhaseMessageOf(g);
      m.phaseNumber == g.currentPhaseIndex + 1 &&
      (m.title == EliminatedTitle <==> exists p :: p in g.players && p.isEliminated) &&
      (m.title == CompleteTitle <==> forall p :: p in g.players ==> !p.isEliminated) &&
      (m.details == AllCorrect <==>
         forall p :: p in g.players ==> !p.isEliminated && !Missed(p))
  {
    PartitionMembers(g.players);
    var m := PhaseMessageOf(g);
    var E := EliminatedOf(g.players);
    var L := LosersOf(g.players);
    if |E| > 0 {
      assert E[0] in E;
      NotAllCorrect(Join(Names(E), ", "), if |E| == 1 then HasEliminated else HaveEliminated);
    } else if |L| > 0 {
      assert L[0] in L;
      NotAllCorrect(Join(Names(L), ", "), if |L| == 1 then LostALife else LostLives);
    }
  }

  /** A sentence whose ending ends in "e!" is never the all-correct sentence, which ends in
      "y!". */
  lemma NotAllCorrect(names: string, ending: string)
    requires |ending| >= 2 && ending[|ending| - 2] == 'e'
    ensures names + ending != AllCorrect
  {
    var s := names + ending;
    assert s[|s| - 2] == 'e';
    assert AllCorrect[|AllCorrect| - 2] == 'y';
  }

  /** The verb agrees in number with the players named: singular exactly when one player is
      named. */
  lemma VerbAgrees(g: Snapshot)
    ensures var E := EliminatedOf(g.players);
      var L := LosersOf(g.players);
      var d := PhaseMessageOf(g).details;
      (|E| > 0 ==> (EndsWith(d, HasEliminated) <==> |E| == 1)) &&
      (|E| == 0 && |L| > 0 ==> (EndsWith(d, LostALife) <==> |L| == 1))
  {
    var E := EliminatedOf(g.players);
    var L := LosersOf(g.players);
    if |E| > 0 {
      EliminatedVerb(Join(Names(E), ", "), |E|);
    } else if |L| > 0 {
      LostVerb(Join(Names(L), ", "), |L|);
    }
  }

  /** The elimination sentence uses "has" for one player and "have" for several. */
  lemma EliminatedVerb(pre: string, n: nat)
    ensures (EndsWith(pre + (if n == 1 then HasEliminated else HaveEliminated), HasEliminated))
            <==> n == 1
  {
    if n == 1 {
      EndsWithAppend(pre, HasEliminated, HasEliminated);
    } else {
      EndsWithAppend(pre, HaveEliminated, HasEliminated);
      HaveIsNotHas();
    }
  }

  lemma HaveIsNotHas()
    ensures !EndsWith(HaveEliminated, HasEliminated)
  {
    assert HaveEliminated[1..][2] != HasEliminated[2];
  }

  /** The lost-life sentence uses "a life" for one player and "lives" for several. */
  lemma LostVerb(pre: string, n: nat)
    ensures (EndsWith(pre + (if n == 1 then LostALife else LostLives), LostALife)) <==> n == 1
  {
    if n == 1 {
      EndsWithAppend(pre, LostALife, LostALife);
    } else if pre != [] {
      var last := [pre[|pre| - 1]] + LostLives;
      assert pre + LostLives == pre[..|pre| - 1] + last;
      EndsWithAppend(pre[..|pre| - 1], last, LostALife);
      assert last[1] != LostALife[1];
    }
  }

  /** Whether a sentence ends in `u` depends only on its last words when they are at least as
      long as `u`. */
  lemma EndsWithAppend(pre: string, tail: string, u: string)
    requires |u| <= |tail|
    ensures EndsWith(pre + tail, u) <==> EndsWith(tail, u)
  {
    var s := pre + tail;
    assert s[|s| - |u|..] == tail[|tail| - |u|..];
  }

  // ---------------------------------------------------------------------------------------
  // Card faces

  function DigitChar(d: nat): char
    requires d < 10
  {
    "0123456789"[d]
  }

  /** `Number.prototype.toString()` on a non-negative integer: its decimal digits. */
  function NatToString(n: nat): (s: string)
    ensures |s| > 0
  {
    if n < 10 then [DigitChar(n)] else NatToString(n / 10) + [DigitChar(n % 10)]
  }

  /** `Number.prototype.toString()` on an integer. */
  function IntToString(n: int): string
  {
    if n < 0 then "-" + NatToString(-n) else NatToString(n)
  }

  /** The value of a string of decimal digits. */
  function DigitsValue(s: string): int
  {
    if s == [] then 0 else DigitsValue(s[..|s| - 1]) * 10 + DigitValue(s[|s| - 1])
  }

  function DigitValue(c: char): int
  {
    if '0' <= c <= '9' then (c as int) - ('0' as int) else 0
  }

  /** The decimal form of a number reads back as that number, and holds only digits. */
  lemma {:induction false} NatToStringRoundTrip(n: nat)
    ensures DigitsValue(NatToString(n)) == n
    ensures forall k :: 0 <= k < |NatToString(n)| ==> '0' <= NatToString(n)[k] <= '9'
  {
    var s := NatToString(n);
    if n >= 10 {
      NatToStringRoundTrip(n / 10);
      var p := NatToString(n / 10);
      assert s == p + [DigitChar(n % 10)];
      assert s[..|s| - 1] == p;
    }
  }

  /** `getItalianNumberDisplay`: the face letters A, J, C, R for 1, 8, 9, 10, the digits for
      2 to 7, and the decimal form for any other number. */
  function NumberDisplay(n: int): string
  {
    match n
    case 1 => "A"
    case 2 => "2"
    case 3 => "3"
    case 4 => "4"
    case 5 => "5"
    case 6 => "6"
    case 7 => "7"
    case 8 => "J"
    case 9 => "C"
    case 10 => "R"
    case _ => IntToString(n)
  }

  /** The faces of the ten card numbers are ten different one-letter strings, the decimal
      form for 2 to 7, and every other number shows its decimal form. */
  lemma NumberDisplayFaces(n: int, m: int)
    ensures 1 <= n <= 10 ==> |NumberDisplay(n)| == 1
    ensures 1 <= n <= 10 && 1 <= m <= 10 && n != m ==> NumberDisplay(n) != NumberDisplay(m)
    ensures 2 <= n <= 7 || n < 1 || n > 10 <==> NumberDisplay(n) == IntToString(n)
  {
    if 1 <= n <= 10 && 1 <= m <= 10 && n != m {
      assert NumberDisplay(n)[0] != NumberDisplay(m)[0];
    }
    if n == 1 || 8 <= n <= 10 {
      assert NumberDisplay(n)[0] != IntToString(n)[0];
    }
  }

  // ---------------------------------------------------------------------------------------
  // Seed styles

  /** One entry of the seed table of `getItalianSeedInfo`. */
  datatype SeedStyle = SeedStyle(symbol: string, cssClass: string, color: string, name: string)

  const BastoniStyle: SeedStyle := SeedStyle("\U{1F33F}", "bastoni", "#8B4513", "Bastoni")
  const SpadeStyle: SeedStyle := SeedStyle("\U{2694}\U{FE0F}", "spade", "#000", "Spade")
  const CoppeStyle: SeedStyle := SeedStyle("\U{1F3C6}", "coppe", "#FFD700", "Coppe")
  const DenariStyle: SeedStyle := SeedStyle("\U{1F4B0}", "denari", "#FF6B6B", "Denari")

  /** `getItalianSeedInfo`: the style of a seed name, falling back to the Bastoni style for a
      name not in the table. */
  function SeedInfo(seed: string): SeedStyle
  {
    if seed == "BASTONI" then BastoniStyle
    else if seed == "SPADE" then SpadeStyle
    else if seed == "COPPE" then CoppeStyle
    else if seed == "DENARI" then DenariStyle
    else BastoniStyle
  }

  /** The four seed names get four different styles; any other name gets the Bastoni one. */
  lemma SeedInfoTable(seed: string)
    ensures seed !in {"BASTONI", "SPADE", "COPPE", "DENARI"} ==> SeedInfo(seed) == SeedInfo("BASTONI")
    ensures SeedInfo(seed).cssClass == "bastoni" <==> seed == "BASTONI" || seed !in {"SPADE", "COPPE", "DENARI"}
  {
  }
}
