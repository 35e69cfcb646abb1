/// `EventServiceUtility`: the three kinds of game event the demo tracks,
/// each with one named parameter carried in the data string as
/// `param:value`.  Every helper builds one event and forwards it to
/// `EventService.TrackEvent`.  To state what the data string means, the
/// module also reads it back: the text before the first `:` is the
/// parameter's name, and an integer value parses back to the integer.
module Utility {
  import opened Session
  import opened Scheduler
  import Service

  const LevelStart := "levelStart"
  const LevelStartParam := "level"
  const RewardClaim := "rewardClaim"
  const RewardClaimParam := "rewardBundle"
  const CoinsSpending := "coinsSpending"
  const CoinsSpendingParam := "coinNumber"

  /** A C# `int`. */
  type Int32 = x: int | -0x8000_0000 <= x < 0x8000_0000

  // ---------------------------------------------------------------------
  // `int.ToString()` and its inverse
  // ---------------------------------------------------------------------

  predicate IsDigit(c: char)
  {
    '0' <= c <= '9'
  }

  predicate AllDigits(s: string)
  {
    forall k :: 0 <= k < |s| ==> IsDigit(s[k])
  }

  /** The decimal digits of a natural number, most significant first, without leading zeros. */
  function NatToString(n: nat): (s: string)
    ensures |s| >= 1 && AllDigits(s)
    ensures s[0] == '0' <==> n == 0
    decreases n
  {
    var last := [(('0' as int) + n % 10) as char];
    if n < 10 then last else NatToString(n / 10) + last
  }

  /** `int.ToString()` with the invariant culture: a leading `-` for negative numbers. */
  function IntToString(n: int): (s: string)
    ensures ':' !in s
    ensures ParseInt(s) == Some(n)
  {
    if n < 0 then
      NatToStringParses(-n);
      "-" + NatToString(-n)
    else
      NatToStringParses(n);
      NatToString(n)
  }

  /** The value of a string of decimal digits. */
  function DigitsValue(s: string): nat
    requires AllDigits(s)
    decreases |s|
  {
    if s == [] then 0
    else DigitsValue(s[..|s| - 1]) * 10 + ((s[|s| - 1] as int) - ('0' as int))
  }

  /** An optional `-` followed by at least one decimal digit. */
  function ParseInt(s: string): Option<int>
  {
    if |s| >= 2 && s[0] == '-' && AllDigits(s[1..]) then Some(0 - DigitsValue(s[1..]))
    else if |s| >= 1 && AllDigits(s) then Some(DigitsValue(s))
    else None
  }

  lemma {:induction false} NatToStringParses(n: nat)
    ensures DigitsValue(NatToString(n)) == n
    ensures NatToString(n)[0] != '-'
    decreases n
  {
    var s := NatToString(n);
    if n >= 10 {
      NatToStringParses(n / 10);
      assert s[..|s| - 1] == NatToString(n / 10);
    }
  }

  // ---------------------------------------------------------------------
  // The `param:value` data string
  // ---------------------------------------------------------------------

  /** The text before the first `:` and the text after it; None when there is no `:`. */
  function SplitAtColon(s: string): (r: Option<(string, string)>)
    ensures r.Some? ==> s == r.value.0 + ":" + r.value.1 && ':' !in r.value.0
    ensures r.None? ==> ':' !in s
    decreases |s|
  {
    if s == [] then None
    else if s[0] == ':' then Some(([], s[1..]))
    else match SplitAtColon(s[1..])
      case None => None
      case Some((p, v)) => Some(([s[0]] + p, v))
  }

  /** Splitting a composed `param:value` gives back the parameter and the value when the parameter has no `:`. */
  lemma {:induction false} SplitComposed(param: string, value: string)
    ensures ':' !in param ==> SplitAtColon(param + ":" + value) == Some((param, value))
    decreases |param|
  {
    var s := param + ":" + value;
    if ':' in param {
    } else if param != [] {
      SplitComposed(param[1..], value);
      assert s[1..] == param[1..] + ":" + value;
      assert [param[0]] + param[1..] == param;
    } else {
      assert s[1..] == value;
    }
  }

  /** An integer parameter read back from an event's data, if it is named `param`. */
  function IntParam(e: EventData, param: string): Option<int>
  {
    match SplitAtColon(e.data)
    case Some((p, v)) => if p == param then ParseInt(v) else None
    case None => None
  }

  // ---------------------------------------------------------------------
  // The events the helpers build
  // ---------------------------------------------------------------------

  /** The private `TrackEvent(eventType, eventParamType, eventParamValue)`: data is `param:value`. */
  function ParamEvent(eventType: string, paramType: string, paramValue: string): (e: EventData)
    ensures e.eventType == eventType
    ensures ':' !in paramType ==> SplitAtColon(e.data) == Some((paramType, paramValue))
  {
    SplitComposed(paramType, paramValue);
    EventData(eventType, paramType + ":" + paramValue)
  }

  /** `TrackLevelStart(level)`: a `levelStart` event whose `level` parameter reads back as the level. */
  function LevelStartEvent(level: Int32): (e: EventData)
    ensures e.eventType == LevelStart
    ensures IntParam(e, LevelStartParam) == Some(level as int)
  {
    ParamEvent(LevelStart, LevelStartParam, IntToString(level as int))
  }

  /** `TrackRewardClaim(rewardBundle)`: a `rewardClaim` event whose `rewardBundle` parameter is the bundle verbatim. */
  function RewardClaimEvent(rewardBundle: string): (e: EventData)
    ensures e.eventType == RewardClaim
    ensures SplitAtColon(e.data) == Some((RewardClaimParam, rewardBundle))
  {
    ParamEvent(RewardClaim, RewardClaimParam, rewardBundle)
  }

  /** `TrackCoinsSpending(coinNumber)`: a `coinsSpending` event whose `coinNumber` parameter reads back as the number. */
  function CoinsSpendingEvent(coinNumber: Int32): (e: EventData)
    ensures e.eventType == CoinsSpending
    ensures IntParam(e, CoinsSpendingParam) == Some(coinNumber as int)
  {
    ParamEvent(CoinsSpending, CoinsSpendingParam, IntToString(coinNumber as int))
  }

  // ---------------------------------------------------------------------
  // Forwarding to the service: each helper tracks exactly one event
  // ---------------------------------------------------------------------

  method TrackParamEvent(service: Service.EventService, eventType: string, paramType: string, paramValue: string)
    requires service.Valid()
    modifies service
    ensures service.Valid()
    ensures service.Abstract() ==
              TrackStep(service.Settings(), old(service.Abstract()), ParamEvent(eventType, paramType, paramValue))
  {
    service.TrackEvent(eventType, paramType + ":" + paramValue);
  }

  method TrackLevelStart(service: Service.EventService, level: Int32)
    requires service.Valid()
    modifies service
    ensures service.Valid()
    ensures service.Abstract() == TrackStep(service.Settings(), old(service.Abstract()), LevelStartEvent(level))
  {
    TrackParamEvent(service, LevelStart, LevelStartParam, IntToString(level as int));
  }

  method TrackRewardClaim(service: Service.EventService, rewardBundle: string)
    requires service.Valid()
    modifies service
    ensures service.Valid()
    ensures service.Abstract() == TrackStep(service.Settings(), old(service.Abstract()), RewardClaimEvent(rewardBundle))
  {
    TrackParamEvent(service, RewardClaim, RewardClaimParam, rewardBundle);
  }

  method TrackCoinsSpending(service: Service.EventService, coinNumber: Int32)
    requires service.Valid()
    modifies service
    ensures service.Valid()
    ensures service.Abstract() == TrackStep(service.Settings(), old(service.Abstract()), CoinsSpendingEvent(coinNumber))
  {
    TrackParamEvent(service, CoinsSpending, CoinsSpendingParam, IntToString(coinNumber as int));
  }
}
