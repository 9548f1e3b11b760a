/** The distance calculator (`dist-calc/service.go`): previous points and the replay memo. */
module Calculator {
  import opened Types

  datatype State = State(prev: map<int, Point>, results: map<string, Float>)

  const EMPTY := State(map[], map[])

  function Calculate(metric: Metric, c: State, d: OBUData): (State, Float) {
    if d.eventID != "" && d.eventID in c.results then
      (c, c.results[d.eventID])
    else
      var dist := if d.obu in c.prev then metric(c.prev[d.obu], d.point) else Finite(0.0);
      (State(c.prev[d.obu := d.point],
             if d.eventID != "" then c.results[d.eventID := dist] else c.results), dist)
  }

  /** A repeated event leaves the state alone and gets the distance of its first calculation. */
  lemma ReplayIsIdempotent(metric: Metric, c: State, d: OBUData)
    requires d.eventID != ""
    ensures var (c', dist) := Calculate(metric, c, d); Calculate(metric, c', d) == (c', dist)
  {
  }

  class CalcService {
    const metric: Metric
    var prevPoints: map<int, Point>
    var results: map<string, Float>

    constructor (metric: Metric)
      ensures Contents() == EMPTY && this.metric == metric
    {
      this.metric := metric;
      prevPoints, results := map[], map[];
    }

    function Contents(): State
      reads this
    {
      State(prevPoints, results)
    }

    method CalculateDist(data: OBUData) returns (dist: Float)
      modifies this
      ensures (Contents(), dist) == Calculate(metric, old(Contents()), data)
      ensures data.eventID != "" && data.eventID in old(results) ==>
                dist == old(results)[data.eventID] && prevPoints == old(prevPoints) && results == old(results)
      ensures data.eventID == "" || data.eventID !in old(results) ==>
                && prevPoints == old(prevPoints)[data.obu := data.point]
                && results == (if data.eventID == "" then old(results) else old(results)[data.eventID := dist])
                && if data.obu in old(prevPoints) then dist == metric(old(prevPoints)[data.obu], data.point)
                   else dist.Finite? && dist.value == 0.0
    {
      if data.eventID != "" {
        if data.eventID in results {
          return results[data.eventID];
        }
      }
      dist := Finite(0.0);
      if data.obu in prevPoints {
        dist := metric(prevPoints[data.obu], data.point);
      }
      prevPoints := prevPoints[data.obu := data.point];
      if data.eventID != "" {
        results := results[data.eventID := dist];
      }
    }
  }
}
