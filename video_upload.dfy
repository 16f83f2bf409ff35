/** The video-only picker: its preview URL and file name, and what it reports through its
    optional `onChange` callback. */
module VideoUpload {
  import opened Wrappers
  import opened Text

  /** A chosen file: its name and its MIME type. */
  datatype FileInfo = FileInfo(name: string, mimeType: string)

  /** What the picker does outside its own state, in order. */
  datatype Event = Changed(url: string) | Alerted(message: string) | Revoked(url: string)

  const InvalidVideoAlert: string := "Please select a valid video file"

  /** The last value reported through `onChange`, if any. */
  function LastReported(events: seq<Event>): (r: Option<string>)
    ensures r.Some? ==> Changed(r.value) in events
    ensures (forall i :: 0 <= i < |events| ==> !events[i].Changed?) ==> r.None?
  {
    if events == [] then None
    else if events[|events| - 1].Changed? then Some(events[|events| - 1].url)
    else
      var r := LastReported(events[..|events| - 1]);
      if r.Some? then
        assert Changed(r.value) in events[..|events| - 1];
        r
      else None
  }

  /** A report followed by anything that is not a report stays the last one. */
  lemma {:induction false} LastReportedAfter(events: seq<Event>, url: string, tail: seq<Event>)
    requires forall i :: 0 <= i < |tail| ==> !tail[i].Changed?
    ensures LastReported(events + [Changed(url)] + tail) == Some(url)
    decreases |tail|
  {
    var whole := events + [Changed(url)] + tail;
    if tail == [] {
      assert whole[|whole| - 1] == Changed(url);
    } else {
      var init := tail[..|tail| - 1];
      assert !tail[|tail| - 1].Changed?;
      assert whole[|whole| - 1] == tail[|tail| - 1];
      assert whole[..|whole| - 1] == events + [Changed(url)] + init;
      assert forall i :: 0 <= i < |init| ==> init[i] == tail[i];
      LastReportedAfter(events, url, init);
      assert LastReported(whole) == LastReported(whole[..|whole| - 1]);
    }
  }

  /** Events that are not reports leave the last report as it was. */
  lemma LastReportedSkips(events: seq<Event>, e: Event)
    requires !e.Changed?
    ensures LastReported(events + [e]) == LastReported(events)
  {
    assert (events + [e])[..|events|] == events;
  }

  class VideoPicker {
    var preview: Option<string>
    var fileName: string
    /** Everything the picker has done outside its state, oldest first. */
    var events: seq<Event>

    /** Once anything has been reported, the parent's value is the preview ("" for none). */
    predicate Valid()
      reads this
    {
      && (preview.Some? ==> preview.value != "")
      && (LastReported(events).Some? ==> LastReported(events).value == preview.GetOr(""))
    }

    /** The initial preview is the value when it is not empty. */
    constructor (value: string)
      ensures preview == (if value != "" then Some(value) else None)
      ensures fileName == "" && events == []
      ensures Valid()
    {
      preview := if value != "" then Some(value) else None;
      fileName := "";
      events := [];
    }

    /** `handleFileChange`: nothing without a file; a non-video only raises an alert; a video
        becomes the preview (`objectUrl`, the URL the browser makes for it), and is reported. */
    method FileChange(file: Option<FileInfo>, objectUrl: string)
      requires Valid() && StartsWith(objectUrl, "blob:")
      modifies this
      ensures Valid()
      ensures file.None? ==> preview == old(preview) && fileName == old(fileName) && events == old(events)
      ensures file.Some? && !StartsWith(file.value.mimeType, "video/") ==>
                preview == old(preview) && fileName == old(fileName) && events == old(events) + [Alerted(InvalidVideoAlert)]
      ensures file.Some? && StartsWith(file.value.mimeType, "video/") ==>
                preview == Some(objectUrl) && fileName == file.value.name && events == old(events) + [Changed(objectUrl)]
    {
      if file.None? {
        return;
      }
      if !StartsWith(file.value.mimeType, "video/") {
        LastReportedSkips(events, Alerted(InvalidVideoAlert));
        events := events + [Alerted(InvalidVideoAlert)];
        return;
      }
      LastReportedAfter(events, objectUrl, []);
      assert events + [Changed(objectUrl)] + [] == events + [Changed(objectUrl)];
      preview := Some(objectUrl);
      fileName := file.value.name;
      events := events + [Changed(objectUrl)];
    }

    /** `handleRemove`: an object-URL preview is revoked first; then the picker is emptied and
        "" is reported. */
    method Remove()
      requires Valid()
      modifies this
      ensures Valid()
      ensures preview.None? && fileName == ""
      ensures events == old(events)
                        + (if old(preview).Some? && StartsWith(old(preview).value, "blob:") then [Revoked(old(preview).value)] else [])
                        + [Changed("")]
    {
      var revoked: seq<Event> := [];
      if preview.Some? && StartsWith(preview.value, "blob:") {
        revoked := [Revoked(preview.value)];
      }
      LastReportedAfter(events + revoked, "", []);
      assert events + revoked + [Changed("")] + [] == events + revoked + [Changed("")];
      preview := None;
      fileName := "";
      events := events + revoked + [Changed("")];
    }
  }
}
