/** The dashboard's handler for a `devices_update` message
    (frontend/src/App.js): the cards are reconciled with the message, and the
    particle field's target becomes the message's driver value. */
module Dashboard {
  import opened Json
  import Readings
  import DeviceCards
  import ParticleField

  /** The socket handler at time `now`: handleDeviceUpdate on the message,
      then the new target of the particle field. The result is the
      dashboard's cleanliness class for the incoming message. */
  method OnDevicesUpdate(cards: DeviceCards.CardHighlights, field: ParticleField.Field,
                         data: seq<DeviceInfo>, now: int)
    returns (className: string)
    requires cards.Valid() && cards.mounted && field.Valid()
    modifies cards, field`targetPM25
    ensures cards.Valid() && cards.mounted && field.Valid()
    ensures cards.devices == data && cards.previous == data
    ensures var flagged := DeviceCards.Flagged(old(cards.previous), data, old(cards.animating));
            && cards.animating == old(cards.animating) + flagged
            && cards.updating == old(cards.updating) + flagged
            && DeviceCards.TimersExtended(old(cards.pending), cards.pending, flagged, now + DeviceCards.HighlightMs)
    ensures field.targetPM25 == Readings.Driver(data) && field.targetPM25 >= 1.0
    ensures className == Readings.ClassName(Readings.CleanlinessOf(cards.devices))
    ensures className == "dusty" <==> exists i :: 0 <= i < |data| && Readings.Reading(data[i]) > 50.0
    ensures className == "clean" <==> forall i :: 0 <= i < |data| ==> Readings.Reading(data[i]) <= 20.0
  {
    cards.HandleDeviceUpdate(data, now);
    field.SetTarget(data);
    Readings.DriverIsFlooredMax(data);
    className := Readings.ClassName(Readings.CleanlinessOf(cards.devices));
  }
}
