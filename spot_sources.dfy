/** The `sources` list of a spot as the data scripts read it from parsed YAML: the JMC source
    is the first plain object in the list whose `label` is exactly "jmc". */
module SpotSources {
  import opened Wrappers
  import opened JsonValue

  /** `isPlainObject(source) && source.label === "jmc"`. */
  predicate IsJmcSource(source: Json) {
    source.JObj? && Get(source, "label") == Some(JStr("jmc"))
  }

  /** `Array.isArray(spot.sources) ? spot.sources : []`. */
  function SourcesOf(spot: Json): (r: seq<Json>)
    ensures Get(spot, "sources").Some? && spot.fields["sources"].JArr? ==> r == spot.fields["sources"].items
    ensures !(Get(spot, "sources").Some? && spot.fields["sources"].JArr?) ==> r == []
  {
    var sources := Get(spot, "sources");
    if sources.Some? && sources.value.JArr? then sources.value.items else []
  }

  /** The index of the first JMC source. */
  function FirstJmcSource(sources: seq<Json>): (r: Option<nat>)
    ensures r.None? <==> forall i :: 0 <= i < |sources| ==> !IsJmcSource(sources[i])
    ensures r.Some? ==> (&& r.value < |sources| && IsJmcSource(sources[r.value])
                         && forall j :: 0 <= j < r.value ==> !IsJmcSource(sources[j]))
  {
    if |sources| == 0 then None
    else if IsJmcSource(sources[0]) then Some(0)
    else
      var rest := FirstJmcSource(sources[1..]);
      if rest.None? then
        assert forall i :: 1 <= i < |sources| ==> sources[i] == sources[1..][i - 1];
        None
      else
        assert forall j :: 1 <= j <= rest.value ==> sources[j] == sources[1..][j - 1];
        Some(rest.value + 1)
  }

  /** `findSpotJmcSource`: the spot's first JMC source, or `null`. */
  function FindSpotJmcSource(spot: Json): (r: Option<Json>)
    ensures r.None? <==> forall i :: 0 <= i < |SourcesOf(spot)| ==> !IsJmcSource(SourcesOf(spot)[i])
    ensures r.Some? ==> exists i :: && 0 <= i < |SourcesOf(spot)| && SourcesOf(spot)[i] == r.value
                                    && IsJmcSource(r.value)
                                    && forall j :: 0 <= j < i ==> !IsJmcSource(SourcesOf(spot)[j])
  {
    var i := FirstJmcSource(SourcesOf(spot));
    if i.Some? then Some(SourcesOf(spot)[i.value]) else None
  }

  /** A non-blank string under `key` of an optional object: `obj && isNonEmptyString(obj.key)`. */
  function NonBlankField(obj: Option<Json>, key: string): (r: Option<string>)
    ensures r.Some? <==> obj.Some? && IsNonEmptyString(Get(obj.value, key))
    ensures r.Some? ==> r.value == obj.value.fields[key].s
  {
    if obj.Some? && IsNonEmptyString(Get(obj.value, key)) then Some(obj.value.fields[key].s) else None
  }
}
