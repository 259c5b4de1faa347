/**
 * The pure pieces of the in-game settings panel: the placeholder name shown to a
 * guest, the handle-id label shown to a signed-in player, and the colour given to
 * the avatar's performance rank.
 */
module PlaySettings {
  import opened Wrappers
  import opened RadixStrings

  const GuestPrefix := "Guest 0x"

  /**
   * The name placeholder for a player without a session: "Guest" when the
   * player id is null or undefined, otherwise "Guest 0x" and the id in
   * lower-case hex, zero-padded to two digits.
   */
  function GuestName(playerId: Option<int>): (r: string)
    ensures playerId.None? <==> r == "Guest"
    ensures playerId.Some? ==>
      && |r| >= |GuestPrefix| + 2
      && r[..|GuestPrefix|] == GuestPrefix
      && r[|GuestPrefix|..] == PadStart(IntToString(playerId.value, 16), 2, '0')
  {
    match playerId
    case None => "Guest"
    case Some(id) => GuestPrefix + PadStart(IntToString(id, 16), 2, '0')
  }

  /** Reads a player id back from a guest name; None for the plain "Guest". */
  function ParseGuestName(name: string): Option<int> {
    if |name| >= |GuestPrefix| && name[..|GuestPrefix|] == GuestPrefix then
      ParseInt(name[|GuestPrefix|..], 16)
    else
      None
  }

  /** The guest name determines the player id: parsing it gives the id back. */
  lemma GuestNameRoundTrip(playerId: Option<int>)
    ensures ParseGuestName(GuestName(playerId)) == playerId
  {
    if playerId.Some? {
      ParsePaddedInt(playerId.value, 16, 2);
      var r := GuestName(playerId);
      assert r[|GuestPrefix|..] == PadStart(IntToString(playerId.value, 16), 2, '0');
    }
  }

  /** An id of 0 is a present id, not a missing one. */
  lemma GuestNameOfZero()
    ensures GuestName(Some(0)) == "Guest 0x00"
  {
    assert NatToString(0, 16) == "0";
    assert PadStart("0", 2, '0') == "00";
  }

  /** Ids 0 to 15 get one leading zero; ids of 256 or more get none. */
  lemma GuestNamePadding(id: int)
    ensures 0 <= id < 16 ==> GuestName(Some(id)) == GuestPrefix + ['0', DigitChar(id)]
    ensures id >= 256 ==> GuestName(Some(id)) == GuestPrefix + NatToString(id, 16)
    ensures id >= 256 ==> |GuestName(Some(id))| >= |GuestPrefix| + 3
  {
    if 0 <= id < 16 {
      assert NatToString(id, 16) == [DigitChar(id)];
      assert PadStart([DigitChar(id)], 2, '0') == ['0', DigitChar(id)];
    }
    if id >= 256 {
      DivideByRadix(id, 16);
      assert id / 16 >= 16;
      assert |NatToString(id / 16, 16)| >= 2;
    }
  }

  /**
   * A negative id of one hex digit already fills the two places with its
   * sign, so it gets no leading zero: -5 is "Guest 0x-5".
   */
  lemma GuestNameNegativePadding(d: nat)
    requires 0 < d < 16
    ensures GuestName(Some(-(d as int))) == GuestPrefix + ['-', DigitChar(d)]
  {
    assert NatToString(d, 16) == [DigitChar(d)];
    assert IntToString(-(d as int), 16) == ['-', DigitChar(d)];
  }

  /**
   * The label after a handle: "#" and the decimal id zero-padded to four
   * digits; only "#" when the profile or its handle is not loaded.
   */
  function HandleLabel(handleId: Option<nat>): (r: string)
    ensures |r| >= 1 && r[0] == '#'
    ensures handleId.None? <==> r == "#"
    ensures handleId.Some? ==> |r| >= 5 && AllDigits(r[1..], 10)
    ensures handleId.Some? ==> IsPaddedLabel(r, NatToString(handleId.value, 10))
  {
    match handleId
    case None => "#"
    case Some(id) =>
      var s := NatToString(id, 10);
      HashPadded(s);
      "#" + PadStart(s, 4, '0')
  }

  /**
   * `r` is "#" followed by the digits `s`, with zeros in front up to four
   * digits and no zeros beyond that.
   */
  predicate IsPaddedLabel(r: string, s: string) {
    && |r| == 1 + (if |s| >= 4 then |s| else 4)
    && r[0] == '#'
    && r[|r| - |s|..] == s
    && forall i :: 1 <= i < |r| - |s| ==> r[i] == '0'
  }

  /** "#" before a digit string zero-padded to four digits. */
  lemma HashPadded(s: string)
    requires AllDigits(s, 10)
    ensures IsPaddedLabel("#" + PadStart(s, 4, '0'), s)
    ensures AllDigits(("#" + PadStart(s, 4, '0'))[1..], 10)
  {
    var digits := PadStart(s, 4, '0');
    var r := "#" + digits;
    var k := |digits| - |s|;
    assert r[1..] == digits;
    assert r[|r| - |s|..] == digits[k..];
    assert forall i :: 1 <= i < |r| - |s| ==> r[i] == digits[i - 1];
    forall i | 0 <= i < |digits|
      ensures IsDigitOf(digits[i], 10)
    {
      if i >= k {
        assert digits[i] == digits[k..][i - k];
      }
    }
  }

  /** Handle 12 is shown as "#0012": zeros up to four digits, no more. */
  lemma HandleLabelOfTwelve()
    ensures HandleLabel(Some(12)) == "#0012"
  {
    assert NatToString(12, 10) == NatToString(1, 10) + [DigitChar(2)];
    assert NatToString(1, 10) == "1";
  }

  /** The handle label determines the id: its digits parse back to it. */
  lemma HandleLabelRoundTrip(id: nat)
    ensures ParseNat(HandleLabel(Some(id))[1..], 10) == Some(id)
  {
    var r := HandleLabel(Some(id));
    assert r[1..] == PadStart(NatToString(id, 10), 4, '0');
    ParsePaddedNat(id, 10, 4);
  }

  /** The colour of a performance rank label. */
  datatype RankColour = Red | Orange | Yellow | Green | Gradient

  const KnownRanks: seq<string> := ["Very Poor", "Poor", "Medium", "Good"]

  function RankColourOf(rank: string): (c: RankColour)
    ensures c == Gradient <==> rank !in KnownRanks
  {
    if rank == "Very Poor" then Red
    else if rank == "Poor" then Orange
    else if rank == "Medium" then Yellow
    else if rank == "Good" then Green
    else Gradient
  }

  /**
   * The class names the rank label is rendered with: a solid Tailwind text
   * colour at shade 500, or the scrolling gradient clipped to the text. The
   * sixth character tells the five apart.
   */
  function RankClass(c: RankColour): (r: string)
    ensures |r| > 5
    ensures c.Gradient? <==> r[0] == 'a'
    ensures !c.Gradient? ==> r[..5] == "text-"
    ensures r[5] == match c
      case Red => 'r'
      case Orange => 'o'
      case Yellow => 'y'
      case Green => 'g'
      case Gradient => 't'
  {
    SolidClassShapes();
    GradientClassShape();
    match c
    case Red => "text-red-500"
    case Orange => "text-orange-500"
    case Yellow => "text-yellow-500"
    case Green => "text-green-500"
    case Gradient => GradientClass
  }

  /**
   * The scrolling red-purple-blue gradient, clipped to the text: the
   * animation class, then the gradient classes.
   */
  const GradientClass: string :=
    "animate-textScroll " + "bg-gradient-to-r from-red-500 via-purple-500 to-blue-500 bg-clip-text text-transparent"

  /** The solid classes start with "text-", then the colour's initial. */
  lemma SolidClassShapes()
    ensures "text-red-500"[..5] == "text-" && "text-red-500"[5] == 'r'
    ensures "text-orange-500"[..5] == "text-" && "text-orange-500"[5] == 'o'
    ensures "text-yellow-500"[..5] == "text-" && "text-yellow-500"[5] == 'y'
    ensures "text-green-500"[..5] == "text-" && "text-green-500"[5] == 'g'
  {
  }

  /** The gradient class starts with "animate-", so not with "text-". */
  lemma GradientClassShape()
    ensures |GradientClass| > 5 && GradientClass[0] == 'a' && GradientClass[5] == 't'
  {
    var head := "animate-textScroll ";
    assert GradientClass[0] == head[0] && GradientClass[5] == head[5];
  }

  /** What the performance row shows: a pulsing placeholder or a coloured rank. */
  datatype RankBadge = Placeholder | Coloured(rank: string, colour: RankColour)

  /** A missing or empty rank (falsy in JavaScript) shows the placeholder. */
  function RankBadgeOf(rank: Option<string>): (b: RankBadge)
    ensures b.Placeholder? <==> rank.None? || rank.value == ""
    ensures b.Coloured? ==> b.rank == rank.value && b.colour == RankColourOf(b.rank)
  {
    match rank
    case Some(s) => if s == "" then Placeholder else Coloured(s, RankColourOf(s))
    case None => Placeholder
  }

  /**
   * The four known ranks get four different colours, and every other rank
   * the gradient.
   */
  lemma RankColours(rank: string)
    ensures RankColourOf("Very Poor") == Red && RankColourOf("Poor") == Orange
    ensures RankColourOf("Medium") == Yellow && RankColourOf("Good") == Green
    ensures forall i, j :: 0 <= i < j < |KnownRanks| ==> RankColourOf(KnownRanks[i]) != RankColourOf(KnownRanks[j])
    ensures rank !in KnownRanks ==> RankColourOf(rank) == Gradient
  {
    var colours := [Red, Orange, Yellow, Green];
    forall i | 0 <= i < |KnownRanks|
      ensures RankColourOf(KnownRanks[i]) == colours[i]
    {
      assert KnownRanks[i] in KnownRanks;
    }
  }

  /** Different colours are rendered with different class names. */
  lemma RankClassesDiffer(c: RankColour, d: RankColour)
    ensures RankClass(c) == RankClass(d) <==> c == d
  {
    if RankClass(c) == RankClass(d) {
      assert RankClass(c)[5] == RankClass(d)[5];
    }
  }
}
