/** The shared description of a warehouse video: which JSON documents the schema admits,
    section by section. Extra keys are allowed, a missing optional key is fine, and
    `urlOk` stands for the URL check every media field applies. */
module Schemata {
  import SchemaForm
  import opened Wrappers

  /** A JSON document. */
  datatype Json =
    | JNull
    | JBool(b: bool)
    | JNum(n: real)
    | JStr(s: string)
    | JArr(items: seq<Json>)
    | JObj(fields: map<string, Json>)

  // ---------------------------------------------------------------- field checks

  predicate IsInt(n: real)
  {
    n == n.Floor as real
  }

  /** A media URL: a string that passes the URL check. */
  predicate MediaUrl(j: Json, urlOk: string -> bool)
  {
    j.JStr? && urlOk(j.s)
  }

  /** `key` is present and its value passes `ok`. */
  predicate Required(o: map<string, Json>, key: string, ok: Json -> bool)
  {
    key in o && ok(o[key])
  }

  /** `key` is absent, or its value passes `ok`. */
  predicate Optional(o: map<string, Json>, key: string, ok: Json -> bool)
  {
    key !in o || ok(o[key])
  }

  predicate IsString(j: Json) { j.JStr? }
  predicate IsNumber(j: Json) { j.JNum? }
  predicate IsBoolean(j: Json) { j.JBool? }

  /** A string from a fixed list. */
  predicate OneOf(j: Json, values: seq<string>)
  {
    j.JStr? && j.s in values
  }

  /** An array all of whose entries are strings from a fixed list. */
  predicate ArrayOf(j: Json, values: seq<string>)
  {
    j.JArr? && forall i :: 0 <= i < |j.items| ==> OneOf(j.items[i], values)
  }

  const PointTypes: seq<string> := ["road", "airport", "railway", "port", "hospital", "other"]
  const Features: seq<string> := ["security_room", "canteen", "washrooms", "fire_pump_room", "driver_rest_area"]
  const SafetyFeatures: seq<string> := ["hydrants", "sprinklers", "alarm_system", "pump_room", "smoke_detectors"]
  const MaxNearbyPoints: nat := 4

  // ---------------------------------------------------------------- objects

  /** `GeoLocation`. */
  predicate GeoLocation(j: Json)
  {
    j.JObj? && Required(j.fields, "lat", IsNumber) && Required(j.fields, "lng", IsNumber)
  }

  /** `AudioMetaSchema`: the narration's URL, its positive length and its transcript. */
  predicate AudioMeta(j: Json, urlOk: string -> bool)
  {
    && j.JObj?
    && Required(j.fields, "audioUrl", u => MediaUrl(u, urlOk))
    && Required(j.fields, "durationInSeconds", (d: Json) => d.JNum? && d.n > 0.0)
    && Required(j.fields, "transcript", IsString)
  }

  /** Section 1: satellite and drone. */
  predicate SatDrone(j: Json, urlOk: string -> bool)
  {
    && j.JObj?
    && Required(j.fields, "location", GeoLocation)
    && Optional(j.fields, "droneVideoUrl", u => MediaUrl(u, urlOk))
    && Required(j.fields, "audio", a => AudioMeta(a, urlOk))
  }

  /** One nearby point of interest. */
  predicate NearbyPoint(j: Json)
  {
    && j.JObj?
    && Required(j.fields, "name", IsString)
    && Required(j.fields, "type", t => OneOf(t, PointTypes))
    && Required(j.fields, "distanceKm", IsNumber)
  }

  predicate NearbyPoints(j: Json)
  {
    j.JArr? && |j.items| <= MaxNearbyPoints && forall i :: 0 <= i < |j.items| ==> NearbyPoint(j.items[i])
  }

  /** Section 2: location highlights. */
  predicate LocationHighlight(j: Json, urlOk: string -> bool)
  {
    && j.JObj?
    && Required(j.fields, "nearbyPoints", NearbyPoints)
    && Optional(j.fields, "approachRoadVideoUrl", u => MediaUrl(u, urlOk))
    && Required(j.fields, "audio", a => AudioMeta(a, urlOk))
  }

  predicate Specs(j: Json)
  {
    && j.JObj?
    && Required(j.fields, "clearHeight", IsString)
    && Required(j.fields, "flooringType", IsString)
    && Required(j.fields, "hasVentilation", IsBoolean)
    && Required(j.fields, "hasInsulation", IsBoolean)
    && Optional(j.fields, "rackingType", IsString)
  }

  predicate Utilities(j: Json, urlOk: string -> bool)
  {
    && j.JObj?
    && Required(j.fields, "videoUrl", u => MediaUrl(u, urlOk))
    && Required(j.fields, "featuresPresent", f => ArrayOf(f, Features))
  }

  /** Section 3: internal storage. */
  predicate InternalStorage(j: Json, urlOk: string -> bool)
  {
    && j.JObj?
    && Required(j.fields, "wideShotVideoUrl", u => MediaUrl(u, urlOk))
    && Required(j.fields, "specs", Specs)
    && Required(j.fields, "internalDockVideoUrl", u => MediaUrl(u, urlOk))
    && Required(j.fields, "utilities", u => Utilities(u, urlOk))
    && Required(j.fields, "audio", a => AudioMeta(a, urlOk))
  }

  /** Section 4: external docking. */
  predicate ExternalDocking(j: Json, urlOk: string -> bool)
  {
    && j.JObj?
    && Required(j.fields, "dockPanVideoUrl", u => MediaUrl(u, urlOk))
    && Optional(j.fields, "dockCount", (c: Json) => c.JNum? && IsInt(c.n))
    && Required(j.fields, "audio", a => AudioMeta(a, urlOk))
  }

  /** Section 5: compliances. */
  predicate Compliance(j: Json, urlOk: string -> bool)
  {
    && j.JObj?
    && Required(j.fields, "fireSafetyVideoUrl", u => MediaUrl(u, urlOk))
    && Required(j.fields, "safetyFeatures", f => ArrayOf(f, SafetyFeatures))
    && Required(j.fields, "audio", a => AudioMeta(a, urlOk))
  }

  predicate Meta(j: Json)
  {
    j.JObj? && Required(j.fields, "clientName", IsString) && Required(j.fields, "projectLocationName", IsString)
  }

  /** `CompositionProps`: the meta strings and all five sections. */
  predicate Composition(j: Json, urlOk: string -> bool)
  {
    && j.JObj?
    && Required(j.fields, "meta", Meta)
    && Required(j.fields, "sectionSatDrone", s => SatDrone(s, urlOk))
    && Required(j.fields, "sectionLocation", s => LocationHighlight(s, urlOk))
    && Required(j.fields, "sectionInternal", s => InternalStorage(s, urlOk))
    && Required(j.fields, "sectionDocking", s => ExternalDocking(s, urlOk))
    && Required(j.fields, "sectionCompliance", s => Compliance(s, urlOk))
  }

  // ---------------------------------------------------------------- properties

  /** Narration metadata is accepted only with a positive length and a URL that passes. */
  lemma AudioMetaMeans(j: Json, urlOk: string -> bool)
    requires AudioMeta(j, urlOk)
    ensures j.fields["durationInSeconds"].n > 0.0
    ensures urlOk(j.fields["audioUrl"].s)
  {
  }

  /** The object without one key. */
  function Without(j: Json, key: string): (r: Json)
    requires j.JObj?
    ensures r.JObj? && key !in r.fields
    ensures forall k :: k in r.fields <==> k in j.fields && k != key
    ensures forall k :: k in r.fields ==> r.fields[k] == j.fields[k]
  {
    JObj(j.fields - {key})
  }

  /** The drone video may be left out of a valid first section. */
  lemma DroneVideoOptional(j: Json, urlOk: string -> bool)
    requires SatDrone(j, urlOk)
    ensures SatDrone(Without(j, "droneVideoUrl"), urlOk)
  {
  }

  /** The approach-road video may be left out of a valid second section. */
  lemma ApproachRoadVideoOptional(j: Json, urlOk: string -> bool)
    requires LocationHighlight(j, urlOk)
    ensures LocationHighlight(Without(j, "approachRoadVideoUrl"), urlOk)
  {
  }

  /** The racking type may be left out of valid specs. */
  lemma RackingTypeOptional(j: Json)
    requires Specs(j)
    ensures Specs(Without(j, "rackingType"))
  {
  }

  /** The wide-shot and internal-dock videos are required: without either, the third
      section is refused. */
  lemma StorageVideosRequired(j: Json, urlOk: string -> bool)
    requires j.JObj?
    ensures !InternalStorage(Without(j, "wideShotVideoUrl"), urlOk)
    ensures !InternalStorage(Without(j, "internalDockVideoUrl"), urlOk)
  {
  }

  /** The utilities video is required. */
  lemma UtilitiesVideoRequired(j: Json, urlOk: string -> bool)
    requires j.JObj?
    ensures !Utilities(Without(j, "videoUrl"), urlOk)
  {
  }

  /** The dock-pan and fire-safety videos are required. */
  lemma DockAndFireVideosRequired(j: Json, urlOk: string -> bool)
    requires j.JObj?
    ensures !ExternalDocking(Without(j, "dockPanVideoUrl"), urlOk)
    ensures !Compliance(Without(j, "fireSafetyVideoUrl"), urlOk)
  {
  }

  /** A dock count, when given, is a whole number; 2.5 docks are refused, 2 accepted. */
  lemma DockCountWhole(j: Json, urlOk: string -> bool)
    requires ExternalDocking(j, urlOk)
    ensures "dockCount" in j.fields ==> j.fields["dockCount"].JNum? && IsInt(j.fields["dockCount"].n)
    ensures !ExternalDocking(JObj(j.fields["dockCount" := JNum(2.5)]), urlOk)
    ensures ExternalDocking(JObj(j.fields["dockCount" := JNum(2.0)]), urlOk)
  {
    assert (2.5).Floor == 2;
    assert (2.0).Floor == 2;
  }

  /** A valid second section lists at most four points, and one more than four is refused. */
  lemma NearbyPointsCapped(j: Json, urlOk: string -> bool, extra: Json)
    requires LocationHighlight(j, urlOk)
    ensures |j.fields["nearbyPoints"].items| <= MaxNearbyPoints
    ensures |j.fields["nearbyPoints"].items| == MaxNearbyPoints ==>
              !LocationHighlight(JObj(j.fields["nearbyPoints" := JArr(j.fields["nearbyPoints"].items + [extra])]), urlOk)
  {
  }

  /** Every point's type, every feature and every safety feature comes from its list. */
  lemma EnumsRestricted(internal: Json, compliance: Json, location: Json, urlOk: string -> bool)
    requires InternalStorage(internal, urlOk) && Compliance(compliance, urlOk) && LocationHighlight(location, urlOk)
    ensures var fs := internal.fields["utilities"].fields["featuresPresent"].items;
            forall i :: 0 <= i < |fs| ==> fs[i].s in Features
    ensures var ss := compliance.fields["safetyFeatures"].items;
            forall i :: 0 <= i < |ss| ==> ss[i].s in SafetyFeatures
    ensures var ps := location.fields["nearbyPoints"].items;
            forall i :: 0 <= i < |ps| ==> ps[i].fields["type"].s in PointTypes
  {
  }

  /** The narration length of a section (the `audio.durationInSeconds` of its object). */
  function AudioDuration(section: Json): real
    requires section.JObj? && "audio" in section.fields && section.fields["audio"].JObj?
    requires "durationInSeconds" in section.fields["audio"].fields
    requires section.fields["audio"].fields["durationInSeconds"].JNum?
  {
    section.fields["audio"].fields["durationInSeconds"].n
  }

  /** In a valid composition every section's narration has a positive length, so the
      editor's section-length rule is in force for all five sections: a section length is
      refused exactly when it is set and shorter than the narration plus one second. */
  lemma DurationRuleEnforcedOnValid(j: Json, urlOk: string -> bool, key: string, value: Option<real>)
    requires Composition(j, urlOk)
    requires key in {"sectionSatDrone", "sectionLocation", "sectionInternal", "sectionDocking", "sectionCompliance"}
    ensures var d := AudioDuration(j.fields[key]);
            && d > 0.0
            && (SchemaForm.ValidateSectionDuration(value, Some(d)).Reject? <==>
                  value.Some? && value.value != 0.0 && value.value < d + 1.0)
  {
    var s := j.fields[key];
    assert AudioMeta(s.fields["audio"], urlOk);
  }
}
