/** The detail dialog of one near-earth object: which figures it shows and in which units.
    Number-to-text formatting (`toFixed(2)`, date printing) is not modelled; a shown
    figure is the number before formatting plus its unit label. */
module NeoDetailModal {
  import opened NeoTypes

  /** A figure as displayed: the (scaled) number and its unit label. */
  datatype Quantity = Quantity(value: real, unit: string)

  const MillionKm: string := "million km"
  const ThousandKm: string := "thousand km"
  const Km: string := "km"
  const KmPerSecond: string := "km/s"

  /** How many kilometres one displayed unit of a distance label stands for. */
  function KmPerUnit(unit: string): real {
    if unit == MillionKm then 1000000.0
    else if unit == ThousandKm then 1000.0
    else 1.0
  }

  /** Mean of the kilometre diameter estimates: the midpoint of the range. */
  function MeanDiameter(n: Neo): (r: real)
    ensures r - n.diameter.minKm == n.diameter.maxKm - r
    ensures n.diameter.minKm <= n.diameter.maxKm ==> n.diameter.minKm <= r <= n.diameter.maxKm
  {
    (n.diameter.minKm + n.diameter.maxKm) / 2.0
  }

  /** Miss distance in km, scaled to the largest unit whose threshold it reaches. */
  function FormatDistance(km: real): (r: Quantity)
    ensures r.unit == MillionKm <==> km >= 1000000.0
    ensures r.unit == ThousandKm <==> 1000.0 <= km < 1000000.0
    ensures r.unit == Km <==> km < 1000.0
    ensures r.value * KmPerUnit(r.unit) == km
    ensures km >= 1000.0 ==> r.value >= 1.0
    ensures 0.0 <= km < 1000000000.0 ==> 0.0 <= r.value < 1000.0
  {
    if km >= 1000000.0 then Quantity(km / 1000000.0, MillionKm)
    else if km >= 1000.0 then Quantity(km / 1000.0, ThousandKm)
    else Quantity(km, Km)
  }

  /** Relative velocity in km/s: never scaled. */
  function FormatVelocity(kmPerS: real): (r: Quantity)
    ensures r.value == kmPerS && r.unit == KmPerSecond
  {
    Quantity(kmPerS, KmPerSecond)
  }

  /** The closest-approach panel. */
  datatype ApproachView = ApproachView(
    date: Day,
    velocity: Quantity,
    missDistance: Quantity,
    orbitingBody: string)

  /** What the dialog shows for one object. */
  datatype Detail = Detail(
    name: string,
    hazardous: bool,
    averageDiameterKm: real,
    absoluteMagnitude: real,
    closest: Option<ApproachView>,
    jplUrl: string)

  /** The dialog's content: nothing without a selected object; the approach panel
      only when the object has a first close-approach record, and built from it. */
  function DetailView(selected: Option<Neo>): (r: Option<Detail>)
    ensures r.None? <==> selected.None?
    ensures r.Some? ==>
      && r.value.name == selected.value.name
      && r.value.hazardous == selected.value.hazardous
      && r.value.averageDiameterKm == MeanDiameter(selected.value)
      && r.value.absoluteMagnitude == selected.value.absoluteMagnitude
      && r.value.jplUrl == selected.value.jplUrl
      && (r.value.closest.Some? <==> |selected.value.approaches| > 0)
    ensures r.Some? && r.value.closest.Some? ==>
      var first := selected.value.approaches[0];
      var shown := r.value.closest.value;
      && shown.date == first.date
      && shown.velocity == FormatVelocity(first.kmPerSecond)
      && shown.missDistance == FormatDistance(first.missKm)
      && shown.orbitingBody == first.orbitingBody
  {
    match selected
    case None => None
    case Some(neo) =>
      var closest :=
        if |neo.approaches| == 0 then None
        else
          var a := neo.approaches[0];
          Some(ApproachView(a.date, FormatVelocity(a.kmPerSecond), FormatDistance(a.missKm), a.orbitingBody));
      Some(Detail(neo.name, neo.hazardous, MeanDiameter(neo), neo.absoluteMagnitude, closest, neo.jplUrl))
  }
}
