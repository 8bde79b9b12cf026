/** The main menu (`MainMenuView`): premium hints unlocked for ten minutes by
    a rewarded ad, their countdown text, and when the two buttons are
    disabled. Times are whole seconds. */
module MainMenu {
  import opened Wrappers
  import opened Decimal
  import opened Text

  /** How long a reward unlocks the hints: `10 * 60` seconds. */
  const RewardSeconds: int := 10 * 60

  /** `canShowPremiumHints`. */
  function CanShowPremiumHints(until: Option<int>, now: int): (r: bool)
  {
    match until
    case None => false
    case Some(u) => now < u
  }

  /** `max(0, Int(until.timeIntervalSinceNow))`. */
  function Remaining(until: int, now: int): (r: nat)
  {
    if until - now > 0 then until - now else 0
  }

  const ExpiresPrefix: string := "Expira em "

  /** `remainingPremiumTimeText`: `"Expira em %02d:%02d"` of the minutes and
      seconds left, or `""` with no unlock. */
  function RemainingPremiumTimeText(until: Option<int>, now: int): (r: string)
  {
    match until
    case None => ""
    case Some(u) =>
      var remaining := Remaining(u, now);
      ExpiresPrefix + Pad2(remaining / 60) + ":" + Pad2(remaining % 60)
  }

  /** The minutes and seconds split the time left, which is the time until
      the unlock runs out, or 0 once it has. */
  lemma RemainingSplit(until: int, now: int)
    ensures var r := Remaining(until, now);
      && r == (if now < until then until - now else 0)
      && r % 60 < 60 && (r / 60) * 60 + r % 60 == r
      && (r > 0 <==> CanShowPremiumHints(Some(until), now))
  {
  }

  /** The text ends in two digits of seconds after a colon, with the minutes
      in between. */
  lemma TextParts(until: int, now: int)
    ensures var t := RemainingPremiumTimeText(Some(until), now);
      var r := Remaining(until, now);
      && |t| >= |ExpiresPrefix| + 5
      && t[..|ExpiresPrefix|] == ExpiresPrefix
      && t[|t| - 3] == ':'
      && t[|t| - 2..] == Pad2(r % 60)
      && t[|ExpiresPrefix|..|t| - 3] == Pad2(r / 60)
  {
    var r := Remaining(until, now);
    var m, s := Pad2(r / 60), Pad2(r % 60);
    var t := RemainingPremiumTimeText(Some(until), now);
    assert t == ExpiresPrefix + m + ":" + s;
    assert |m| >= 2 && |s| == 2;
  }

  /** The text tells the time left exactly: two unlocks whose texts agree
      have the same number of seconds left. */
  lemma TextDeterminesRemaining(u1: int, n1: int, u2: int, n2: int)
    requires RemainingPremiumTimeText(Some(u1), n1) == RemainingPremiumTimeText(Some(u2), n2)
    ensures Remaining(u1, n1) == Remaining(u2, n2)
  {
    TextParts(u1, n1);
    TextParts(u2, n2);
    var r1, r2 := Remaining(u1, n1), Remaining(u2, n2);
    Pad2Injective(r1 % 60, r2 % 60);
    Pad2Injective(r1 / 60, r2 / 60);
    RemainingSplit(u1, n1);
    RemainingSplit(u2, n2);
  }

  /** Without an unlock there are no hints and no text. */
  lemma NoUnlock(now: int)
    ensures !CanShowPremiumHints(None, now) && RemainingPremiumTimeText(None, now) == ""
  {
  }

  /** Once the unlock has run out, the hints are gone and the text reads
      "00:00". */
  lemma ExpiredText(until: int, now: int)
    requires now >= until
    ensures !CanShowPremiumHints(Some(until), now)
    ensures RemainingPremiumTimeText(Some(until), now) == "Expira em 00:00"
  {
    assert Pad2(0) == "00";
  }

  /** Right after the reward the hints show, and the text reads "10:00". */
  lemma JustRewarded(now: int)
    ensures CanShowPremiumHints(Some(now + RewardSeconds), now)
    ensures RemainingPremiumTimeText(Some(now + RewardSeconds), now) == "Expira em 10:00"
  {
    assert Remaining(now + RewardSeconds, now) == 600;
    assert Pad2(10) == "10" && Pad2(0) == "00";
  }

  /** During the ten minutes after a reward the hints show and fewer than
      ten whole minutes are left after the first second. */
  lemma DuringReward(rewardedAt: int, now: int)
    requires rewardedAt <= now < rewardedAt + RewardSeconds
    ensures CanShowPremiumHints(Some(rewardedAt + RewardSeconds), now)
    ensures Remaining(rewardedAt + RewardSeconds, now) / 60 <= 10
    ensures now > rewardedAt ==> Remaining(rewardedAt + RewardSeconds, now) / 60 < 10
  {
  }

  // --------------------------------------------------------------- buttons

  /** `.disabled(!rewardedManager.isReady && !canShowPremiumHints)`. */
  function RewardedButtonDisabled(isReady: bool, until: Option<int>, now: int): (r: bool)
  {
    !isReady && !CanShowPremiumHints(until, now)
  }

  /** `.disabled(adSettings.adsRemoved)`. */
  function RemoveAdsButtonDisabled(adsRemoved: bool): (r: bool)
  {
    adsRemoved
  }

  /** After a reward at `rewardedAt` the rewarded button stays usable for
      the ten minutes whether or not another ad is ready, and from then on
      it is usable exactly once an ad is ready; the remove-ads button is
      usable exactly while ads are still shown. */
  lemma ButtonRules(isReady: bool, rewardedAt: int, now: int, adsRemoved: bool)
    requires rewardedAt <= now
    ensures now < rewardedAt + RewardSeconds ==>
      !RewardedButtonDisabled(isReady, Some(rewardedAt + RewardSeconds), now)
    ensures now >= rewardedAt + RewardSeconds ==>
      (RewardedButtonDisabled(isReady, Some(rewardedAt + RewardSeconds), now) <==> !isReady)
    ensures !RewardedButtonDisabled(isReady, None, now) <==> isReady
    ensures RemoveAdsButtonDisabled(adsRemoved) <==> adsRemoved
  {
  }

  /** The premium card's title and subtitle. */
  datatype Card = Card(title: string, subtitle: string)

  function PremiumCard(isReady: bool, until: Option<int>, now: int): (r: Card)
  {
    if CanShowPremiumHints(until, now) then Card("Dicas Premium Ativas", RemainingPremiumTimeText(until, now))
    else Card("Ganhar Dicas Premium", if isReady then "Assista um anúncio recompensado" else "Carregando anúncio...")
  }

  /** While the hints show, the card shows the countdown; otherwise it
      invites to watch the ad or says it is loading. */
  lemma PremiumCardSpec(isReady: bool, until: Option<int>, now: int)
    ensures CanShowPremiumHints(until, now) ==>
      PremiumCard(isReady, until, now).subtitle[..|ExpiresPrefix|] == ExpiresPrefix
    ensures PremiumCard(isReady, until, now).title == "Dicas Premium Ativas" <==> CanShowPremiumHints(until, now)
  {
    if CanShowPremiumHints(until, now) {
      TextParts(until.value, now);
    } else {
      assert "Ganhar Dicas Premium"[0] != "Dicas Premium Ativas"[0];
    }
  }

  /** The menu's `@State`. */
  class MainMenuState {
    var premiumHintsUnlockedUntil: Option<int>

    constructor()
      ensures premiumHintsUnlockedUntil == None
    {
      premiumHintsUnlockedUntil := None;
    }

    /** The `onReward` callback of `showRewarded()`, at time `now`. */
    method OnReward(now: int)
      modifies this
      ensures premiumHintsUnlockedUntil == Some(now + RewardSeconds)
      ensures CanShowPremiumHints(premiumHintsUnlockedUntil, now)
      ensures RemainingPremiumTimeText(premiumHintsUnlockedUntil, now) == "Expira em 10:00"
    {
      premiumHintsUnlockedUntil := Some(now + RewardSeconds);
      JustRewarded(now);
    }
  }
}
