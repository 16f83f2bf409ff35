/** The annotation layers of the map section and the list that edits them: every handler
    derives a fresh list (reorder by drag and drop, change a transcript or a duration,
    remove) and hands it on; the header shows the total narration time. */
module AnnotationLayerList {
  import opened Wrappers
  import Sequences

  /** The narration of a layer; every part of it is optional. */
  datatype LayerAudio = LayerAudio(audioUrl: Option<string>, durationInSeconds: Option<real>, transcript: Option<string>)

  /** One drawing over the map: its flattened PNG data URL, its colour, its place in the
      list and its optional narration. */
  datatype AnnotationLayer = AnnotationLayer(
    id: string, name: string, drawingDataUrl: string, color: string, order: int, audio: Option<LayerAudio>)

  /** `l.audio?.audioUrl`. */
  function AudioUrl(l: AnnotationLayer): Option<string>
  {
    if l.audio.Some? then l.audio.value.audioUrl else None
  }

  /** `l.audio?.durationInSeconds`. */
  function Duration(l: AnnotationLayer): Option<real>
  {
    if l.audio.Some? then l.audio.value.durationInSeconds else None
  }

  /** `l.audio?.transcript`. */
  function Transcript(l: AnnotationLayer): Option<string>
  {
    if l.audio.Some? then l.audio.value.transcript else None
  }

  /** The layer with everything but its narration: what a narration edit must not touch. */
  function Drawing(l: AnnotationLayer): AnnotationLayer
  {
    l.(audio := None)
  }

  function Ids(layers: seq<AnnotationLayer>): (ids: seq<string>)
    ensures |ids| == |layers| && forall i :: 0 <= i < |layers| ==> ids[i] == layers[i].id
  {
    seq(|layers|, i requires 0 <= i < |layers| => layers[i].id)
  }

  /** Every layer's `order` is its index in the list. */
  predicate NumberedFromZero(layers: seq<AnnotationLayer>)
  {
    forall i :: 0 <= i < |layers| ==> layers[i].order == i
  }

  /** `.map((l, i) => ({ ...l, order: i }))`. */
  function Renumbered(layers: seq<AnnotationLayer>): (r: seq<AnnotationLayer>)
    ensures |r| == |layers| && NumberedFromZero(r)
    ensures forall i :: 0 <= i < |layers| ==> r[i].(order := 0) == layers[i].(order := 0)
  {
    seq(|layers|, i requires 0 <= i < |layers| => layers[i].(order := i))
  }

  // ---------------------------------------------------------------- drag and drop

  /** `handleDragEnd`: no drop target, or a drop on the dragged layer itself, changes
      nothing; otherwise the dragged layer moves to the target's index, the others keep
      their relative order, and the list is renumbered. The identifiers come from the
      sortable items, so both are in the list. */
  function DragEnd(layers: seq<AnnotationLayer>, active: string, over: Option<string>): (r: Option<seq<AnnotationLayer>>)
    requires active in Ids(layers)
    requires over.Some? ==> over.value in Ids(layers)
    ensures r.Some? <==> over.Some? && over.value != active
    ensures r.Some? ==>
              var from := Sequences.FindIndex(layers, (l: AnnotationLayer) => l.id == active);
              var to := Sequences.FindIndex(layers, (l: AnnotationLayer) => l.id == over.value);
              && 0 <= from < |layers| && 0 <= to < |layers|
              && |r.value| == |layers| && NumberedFromZero(r.value)
              && r.value[to] == layers[from].(order := to)
              && (forall i :: 0 <= i < |layers| ==>
                    r.value[i] == Sequences.ArrayMove(layers, from, to)[i].(order := i))
  {
    if over.None? || over.value == active then None
    else
      var from := Sequences.FindIndex(layers, (l: AnnotationLayer) => l.id == active);
      var to := Sequences.FindIndex(layers, (l: AnnotationLayer) => l.id == over.value);
      assert from >= 0 by { IdFound(layers, active); }
      assert to >= 0 by { IdFound(layers, over.value); }
      Some(Renumbered(Sequences.ArrayMove(layers, from, to)))
  }

  lemma IdFound(layers: seq<AnnotationLayer>, id: string)
    requires id in Ids(layers)
    ensures Sequences.FindIndex(layers, (l: AnnotationLayer) => l.id == id) >= 0
  {
    var k :| 0 <= k < |layers| && Ids(layers)[k] == id;
    assert layers[k].id == id;
  }

  // ---------------------------------------------------------------- narration edits

  /** `{ ...l.audio, transcript }`: spreading an absent narration gives one holding only
      the transcript. */
  function WithTranscript(audio: Option<LayerAudio>, transcript: string): (a: LayerAudio)
    ensures a.transcript == Some(transcript)
    ensures audio.Some? ==> a.audioUrl == audio.value.audioUrl && a.durationInSeconds == audio.value.durationInSeconds
    ensures audio.None? ==> a.audioUrl.None? && a.durationInSeconds.None?
  {
    if audio.Some? then audio.value.(transcript := Some(transcript)) else LayerAudio(None, None, Some(transcript))
  }

  /** `{ ...l.audio, durationInSeconds }`. */
  function WithDuration(audio: Option<LayerAudio>, duration: real): (a: LayerAudio)
    ensures a.durationInSeconds == Some(duration)
    ensures audio.Some? ==> a.audioUrl == audio.value.audioUrl && a.transcript == audio.value.transcript
    ensures audio.None? ==> a.audioUrl.None? && a.transcript.None?
  {
    if audio.Some? then audio.value.(durationInSeconds := Some(duration)) else LayerAudio(None, Some(duration), None)
  }

  /** `handleTranscriptChange`: the layers with that id get the new transcript; nothing
      else about any layer changes. */
  function TranscriptChange(layers: seq<AnnotationLayer>, id: string, transcript: string): (r: seq<AnnotationLayer>)
    ensures |r| == |layers|
    ensures forall i :: 0 <= i < |layers| && layers[i].id != id ==> r[i] == layers[i]
    ensures forall i :: 0 <= i < |layers| && layers[i].id == id ==>
              && Drawing(r[i]) == Drawing(layers[i])
              && Transcript(r[i]) == Some(transcript)
              && AudioUrl(r[i]) == AudioUrl(layers[i])
              && Duration(r[i]) == Duration(layers[i])
  {
    seq(|layers|, i requires 0 <= i < |layers| =>
      if layers[i].id == id then layers[i].(audio := Some(WithTranscript(layers[i].audio, transcript))) else layers[i])
  }

  /** `handleDurationChange`: the layers with that id get the new duration; nothing else
      about any layer changes. */
  function DurationChange(layers: seq<AnnotationLayer>, id: string, duration: real): (r: seq<AnnotationLayer>)
    ensures |r| == |layers|
    ensures forall i :: 0 <= i < |layers| && layers[i].id != id ==> r[i] == layers[i]
    ensures forall i :: 0 <= i < |layers| && layers[i].id == id ==>
              && Drawing(r[i]) == Drawing(layers[i])
              && Duration(r[i]) == Some(duration)
              && AudioUrl(r[i]) == AudioUrl(layers[i])
              && Transcript(r[i]) == Transcript(layers[i])
  {
    seq(|layers|, i requires 0 <= i < |layers| =>
      if layers[i].id == id then layers[i].(audio := Some(WithDuration(layers[i].audio, duration))) else layers[i])
  }

  // ---------------------------------------------------------------- removal

  /** `handleRemove`: the layers with that id are dropped, the rest keep their order and
      are renumbered from zero. */
  function Remove(layers: seq<AnnotationLayer>, id: string): (r: seq<AnnotationLayer>)
    ensures |r| <= |layers| && NumberedFromZero(r)
    ensures forall i :: 0 <= i < |r| ==> r[i].id != id
    ensures forall x :: x in Ids(r) <==> x in Ids(layers) && x != id
    ensures var kept := Sequences.Filter(layers, (l: AnnotationLayer) => l.id != id);
            |r| == |kept| && forall i :: 0 <= i < |r| ==> r[i] == kept[i].(order := i)
  {
    var kept := Sequences.Filter(layers, (l: AnnotationLayer) => l.id != id);
    var r := Renumbered(kept);
    forall x ensures x in Ids(r) <==> x in Ids(layers) && x != id {
      if x in Ids(r) {
        var k :| 0 <= k < |r| && Ids(r)[k] == x;
        assert kept[k] in kept;
        var j :| 0 <= j < |layers| && layers[j] == kept[k];
        assert Ids(layers)[j] == x;
      }
      if x in Ids(layers) && x != id {
        var j :| 0 <= j < |layers| && Ids(layers)[j] == x;
        assert layers[j] in kept;
        var k :| 0 <= k < |kept| && kept[k] == layers[j];
        assert Ids(r)[k] == x;
      }
    }
    forall i | 0 <= i < |r| ensures r[i].id != id {
      assert kept[i] in kept;
    }
    r
  }

  // ---------------------------------------------------------------- total duration

  /** `l.audio?.durationInSeconds || 0`: a missing duration counts as zero. */
  function Seconds(l: AnnotationLayer): real
  {
    if Duration(l).Some? then Duration(l).value else 0.0
  }

  /** The displayed total: the sum of the layers' durations. */
  function TotalDuration(layers: seq<AnnotationLayer>): real
  {
    if layers == [] then 0.0 else Seconds(layers[0]) + TotalDuration(layers[1..])
  }

  /** The total of a list made of two parts is the sum of their totals. */
  lemma {:induction false} TotalConcat(a: seq<AnnotationLayer>, b: seq<AnnotationLayer>)
    ensures TotalDuration(a + b) == TotalDuration(a) + TotalDuration(b)
    decreases |a|
  {
    if a == [] {
      assert a + b == b;
    } else {
      assert (a + b)[1..] == a[1..] + b;
      TotalConcat(a[1..], b);
    }
  }

  /** Lists whose layers have the same durations index by index have the same total. */
  lemma {:induction false} TotalPointwise(a: seq<AnnotationLayer>, b: seq<AnnotationLayer>)
    requires |a| == |b|
    requires forall i :: 0 <= i < |a| ==> Seconds(a[i]) == Seconds(b[i])
    ensures TotalDuration(a) == TotalDuration(b)
    decreases |a|
  {
    if a != [] {
      TotalPointwise(a[1..], b[1..]);
    }
  }

  /** Taking the layer at index `k` out lowers the total by exactly its duration. */
  lemma TotalWithoutIndex(s: seq<AnnotationLayer>, k: nat)
    requires k < |s|
    ensures TotalDuration(Sequences.WithoutIndex(s, k)) == TotalDuration(s) - Seconds(s[k])
  {
    Sequences.SplitAt(s, k);
    TotalAround(s[..k], s[k], s[k + 1..]);
  }

  /** Inserting a layer raises the total by exactly its duration. */
  lemma TotalInsertAt(s: seq<AnnotationLayer>, k: nat, x: AnnotationLayer)
    requires k <= |s|
    ensures TotalDuration(Sequences.InsertAt(s, k, x)) == TotalDuration(s) + Seconds(x)
  {
    assert s == s[..k] + s[k..];
    TotalAround(s[..k], x, s[k..]);
  }

  /** One layer between two parts adds its duration to the total of the parts. */
  lemma TotalAround(a: seq<AnnotationLayer>, x: AnnotationLayer, b: seq<AnnotationLayer>)
    ensures TotalDuration(a + [x] + b) == TotalDuration(a + b) + Seconds(x)
  {
    TotalConcat(a + [x], b);
    TotalConcat(a, [x]);
    TotalConcat(a, b);
    assert TotalDuration([x]) == Seconds(x) + TotalDuration([]);
  }

  /** Reordering by drag and drop keeps the displayed total. */
  lemma DragEndKeepsTotal(layers: seq<AnnotationLayer>, active: string, over: Option<string>)
    requires active in Ids(layers)
    requires over.Some? ==> over.value in Ids(layers)
    ensures var r := DragEnd(layers, active, over);
            r.Some? ==> TotalDuration(r.value) == TotalDuration(layers)
  {
    var r := DragEnd(layers, active, over);
    if r.Some? {
      var from := Sequences.FindIndex(layers, (l: AnnotationLayer) => l.id == active);
      var to := Sequences.FindIndex(layers, (l: AnnotationLayer) => l.id == over.value);
      var moved := Sequences.ArrayMove(layers, from, to);
      var rest := Sequences.WithoutIndex(layers, from);
      assert moved == Sequences.InsertAt(rest, to, layers[from]);
      TotalWithoutIndex(layers, from);
      TotalInsertAt(rest, to, layers[from]);
      TotalPointwise(r.value, moved);
    }
  }

  /** Editing a transcript does not change the total. */
  lemma TranscriptChangeKeepsTotal(layers: seq<AnnotationLayer>, id: string, transcript: string)
    ensures TotalDuration(TranscriptChange(layers, id, transcript)) == TotalDuration(layers)
  {
    TotalPointwise(TranscriptChange(layers, id, transcript), layers);
  }

  /** Removing a layer lowers the total by exactly the durations of the removed layers. */
  lemma {:induction false} RemoveTotal(layers: seq<AnnotationLayer>, id: string)
    ensures TotalDuration(Remove(layers, id))
            == TotalDuration(layers) - TotalDuration(Sequences.Filter(layers, (l: AnnotationLayer) => l.id == id))
  {
    var kept := Sequences.Filter(layers, (l: AnnotationLayer) => l.id != id);
    TotalPointwise(Remove(layers, id), kept);
    FilterSplitsTotal(layers, id);
  }

  lemma {:induction false} FilterSplitsTotal(layers: seq<AnnotationLayer>, id: string)
    ensures TotalDuration(Sequences.Filter(layers, (l: AnnotationLayer) => l.id != id))
            + TotalDuration(Sequences.Filter(layers, (l: AnnotationLayer) => l.id == id))
            == TotalDuration(layers)
    decreases |layers|
  {
    if layers != [] {
      FilterSplitsTotal(layers[1..], id);
      var head := [layers[0]];
      if layers[0].id == id {
        TotalConcat(head, Sequences.Filter(layers[1..], (l: AnnotationLayer) => l.id == id));
        TotalConcat([], Sequences.Filter(layers[1..], (l: AnnotationLayer) => l.id != id));
      } else {
        TotalConcat(head, Sequences.Filter(layers[1..], (l: AnnotationLayer) => l.id != id));
        TotalConcat([], Sequences.Filter(layers[1..], (l: AnnotationLayer) => l.id == id));
      }
    }
  }

  /** With distinct identifiers, setting one layer's duration moves the total from its
      old duration to the new one. */
  lemma {:induction false} DurationChangeTotal(layers: seq<AnnotationLayer>, k: nat, duration: real)
    requires k < |layers|
    requires forall i, j :: 0 <= i < j < |layers| ==> layers[i].id != layers[j].id
    ensures TotalDuration(DurationChange(layers, layers[k].id, duration))
            == TotalDuration(layers) - Seconds(layers[k]) + duration
    decreases |layers|
  {
    var r := DurationChange(layers, layers[k].id, duration);
    if k == 0 {
      TotalPointwise(r[1..], layers[1..]);
    } else {
      assert r[1..] == DurationChange(layers[1..], layers[k].id, duration);
      DurationChangeTotal(layers[1..], k - 1, duration);
    }
  }
}
