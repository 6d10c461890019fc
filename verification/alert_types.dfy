/** The six alert types a notification is labelled with, chosen by the days
    left before expiry. The SMS formatter, the e-mail formatter and the e-mail
    template each carry a copy of the same banding; they are all defined in
    terms of `BandOf` here. */
module AlertTypes {

  /** The day thresholds shared by both channels. */
  const Threshold1Day: int := 1
  const Threshold7Day: int := 7
  const Threshold15Day: int := 15
  const Threshold30Day: int := 30

  const ExpiredName: string := "已过期预警"
  const OneDayName: string := "1天预警"
  const SevenDayName: string := "7天预警"
  const FifteenDayName: string := "15天预警"
  const ThirtyDayName: string := "30天预警"
  const RoutineName: string := "常规监控"

  datatype Band = ExpiredBand | OneDay | SevenDays | FifteenDays | ThirtyDays | Routine

  /** Bands ordered from most to least urgent. */
  function Urgency(b: Band): nat {
    match b
    case ExpiredBand => 5
    case OneDay => 4
    case SevenDays => 3
    case FifteenDays => 2
    case ThirtyDays => 1
    case Routine => 0
  }

  /** The band of a day count: at most 0, at most 1, 7, 15, 30, and the rest. */
  function BandOf(d: int): (b: Band)
    ensures b == ExpiredBand <==> d <= 0
    ensures b == OneDay <==> 0 < d <= Threshold1Day
    ensures b == SevenDays <==> Threshold1Day < d <= Threshold7Day
    ensures b == FifteenDays <==> Threshold7Day < d <= Threshold15Day
    ensures b == ThirtyDays <==> Threshold15Day < d <= Threshold30Day
    ensures b == Routine <==> Threshold30Day < d
  {
    if d <= 0 then ExpiredBand
    else if d <= Threshold1Day then OneDay
    else if d <= Threshold7Day then SevenDays
    else if d <= Threshold15Day then FifteenDays
    else if d <= Threshold30Day then ThirtyDays
    else Routine
  }

  /** The label each band is reported with. */
  function Name(b: Band): string {
    match b
    case ExpiredBand => ExpiredName
    case OneDay => OneDayName
    case SevenDays => SevenDayName
    case FifteenDays => FifteenDayName
    case ThirtyDays => ThirtyDayName
    case Routine => RoutineName
  }

  /** The label of a day count, as every copy of the banding computes it. */
  function AlertTypeOf(d: int): (s: string)
    ensures s == ExpiredName <==> d <= 0
    ensures s == OneDayName <==> d == 1
    ensures s == SevenDayName <==> 1 < d <= 7
    ensures s == FifteenDayName <==> 7 < d <= 15
    ensures s == ThirtyDayName <==> 15 < d <= 30
    ensures s == RoutineName <==> 30 < d
  {
    NameInjective();
    Name(BandOf(d))
  }

  /** Distinct bands carry distinct labels, so a label identifies its band. */
  lemma NameInjective()
    ensures forall a: Band, b: Band :: Name(a) == Name(b) ==> a == b
  {
  }

  /** Fewer days left never means a less urgent band. */
  lemma BandMonotone(d1: int, d2: int)
    requires d1 <= d2
    ensures Urgency(BandOf(d1)) >= Urgency(BandOf(d2))
  {
  }

  /** The four named day bands are exactly the day counts at which a time-based
      rule with that many days of notice first applies: the band's upper limit
      is the threshold it is named after. */
  lemma BandUpperLimits()
    ensures BandOf(Threshold1Day) == OneDay && BandOf(Threshold1Day + 1) == SevenDays
    ensures BandOf(Threshold7Day) == SevenDays && BandOf(Threshold7Day + 1) == FifteenDays
    ensures BandOf(Threshold15Day) == FifteenDays && BandOf(Threshold15Day + 1) == ThirtyDays
    ensures BandOf(Threshold30Day) == ThirtyDays && BandOf(Threshold30Day + 1) == Routine
  {
  }
}
