/** The air-quality augmentation effect (src/WeatherMap.js:60-79): once a
    record with coordinates is shown and has no AQI yet, one more request is
    made and its `current` block merged in. The request is the `AqiReply`
    input. */
module AirQuality {
  import opened Wrappers
  import opened Records

  datatype AqiCurrent = AqiCurrent(us_aqi: Option<real>, pm2_5: Option<real>)

  /** A thrown request or unparseable body is `AqiFailed`. */
  datatype AqiReply = AqiFailed | AqiBody(current: Option<AqiCurrent>)

  /** `{ val, pm25 }`: an object, so present (truthy) even when both are undefined. */
  datatype Aqi = Aqi(val: Option<real>, pm25: Option<real>)

  /** The `weather` state: the resolved record and the AQI merged into it. */
  datatype Shown = Shown(record: WeatherRecord, aqi: Option<Aqi>)

  /** `weather && weather.lat && weather.lon && !weather.aqi`: a latitude or
      longitude of exactly 0 is falsy and suppresses the request. */
  predicate NeedsAqi(w: Option<Shown>) {
    w.Some? && w.value.record.lat != 0.0 && w.value.record.lon != 0.0 && w.value.aqi.None?
  }

  /** The coordinates the effect asks about, when it makes a request. */
  function AqiRequest(w: Option<Shown>): (q: Option<(real, real)>)
    ensures q.Some? <==> NeedsAqi(w)
    ensures q.Some? ==> q.value == (w.value.record.lat, w.value.record.lon) && q.value.0 != 0.0 && q.value.1 != 0.0
  {
    if NeedsAqi(w) then Some((w.value.record.lat, w.value.record.lon)) else None
  }

  /** The updater `prev => ({...prev, aqi: {...}})`, applied to the state shown
      when the answer arrives; an answer without a `current` block changes
      nothing. */
  function MergeAqi(prev: Shown, reply: AqiReply): (w: Shown)
    ensures w.record == prev.record
    ensures reply.AqiBody? && reply.current.Some? ==>
              w.aqi == Some(Aqi(reply.current.value.us_aqi, reply.current.value.pm2_5))
    ensures !(reply.AqiBody? && reply.current.Some?) ==> w == prev
  {
    if reply.AqiBody? && reply.current.Some? then
      prev.(aqi := Some(Aqi(reply.current.value.us_aqi, reply.current.value.pm2_5)))
    else prev
  }

  /** The effect run for the state `asked`, with its answer landing on the
      state `now` shown at that moment. The request is decided from `asked`,
      the merge reads `now`: once a record has been shown the state is never
      null again (every `setWeather` stores an object), so `now` is a record. */
  function Deliver(asked: Option<Shown>, now: Shown, reply: AqiReply): (w: Shown)
    ensures w.record == now.record
    ensures !NeedsAqi(asked) ==> w == now
    ensures NeedsAqi(asked) ==> w == MergeAqi(now, reply)
  {
    if AqiRequest(asked).Some? then MergeAqi(now, reply) else now
  }

  /** The state after the effect has run with the given reply, when nothing
      else is shown before the answer arrives. */
  function Augment(w: Option<Shown>, reply: AqiReply): (w': Option<Shown>)
    ensures w'.Some? <==> w.Some?
    ensures w'.Some? ==> w'.value.record == w.value.record
    ensures !NeedsAqi(w) ==> w' == w
    ensures NeedsAqi(w) && reply.AqiBody? && reply.current.Some? ==>
              w'.value.aqi == Some(Aqi(reply.current.value.us_aqi, reply.current.value.pm2_5))
    ensures !(reply.AqiBody? && reply.current.Some?) ==> w' == w
    ensures w.Some? ==> w'.value == Deliver(w, w.value, reply)
  {
    if NeedsAqi(w) then Some(MergeAqi(w.value, reply)) else w
  }

  /** Augmentation happens at most once per record: after a merged answer no
      further request is made, and a second run changes nothing. */
  lemma AugmentIdempotent(w: Option<Shown>, first: AqiReply, second: AqiReply)
    requires first.AqiBody? && first.current.Some?
    ensures !NeedsAqi(Augment(w, first))
    ensures Augment(Augment(w, first), second) == Augment(w, first)
  {
  }

  /** An answer that arrives after another place was chosen is merged into
      that place: it replaces an AQI the place already has, and it lands on a
      place whose coordinates (a latitude or longitude of 0) would never have
      asked for one, which then differs from what the effect gives that place
      on its own. */
  lemma StaleAnswerLandsOnShown(asked: Shown, now: Shown, reply: AqiReply)
    requires NeedsAqi(Some(asked)) && reply.AqiBody? && reply.current.Some?
    ensures Deliver(Some(asked), now, reply).record == now.record
    ensures Deliver(Some(asked), now, reply).aqi == Some(Aqi(reply.current.value.us_aqi, reply.current.value.pm2_5))
    ensures !NeedsAqi(Some(now)) && now.aqi.None? ==>
              Deliver(Some(asked), now, reply) != Augment(Some(now), reply).value
  {
  }
}
