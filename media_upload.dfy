/** The picker that takes either a video or an image for one field: its state (kind, preview
    URL, file name) and what it tells its parent through the optional callbacks. */
module MediaUpload {
  import opened Wrappers
  import opened Text

  datatype MediaKind = Video | Image

  /** A chosen file: its name and its MIME type. */
  datatype FileInfo = FileInfo(name: string, mimeType: string)

  /** What the picker does outside its own state, in order: the three callbacks, the
      browser's alert, and revoking an object URL. */
  datatype Event =
    | VideoChanged(url: string)
    | ImageChanged(url: string)
    | FileSelected(file: Option<FileInfo>, kind: MediaKind)
    | Alerted(message: string)
    | Revoked(url: string)

  const InvalidFileAlert: string := "Please select a valid video or image file"

  /** The kind a MIME type is taken as: "video/" is checked first, then "image/". */
  function Classify(mimeType: string): (k: Option<MediaKind>)
    ensures k == Some(Video) <==> StartsWith(mimeType, "video/")
    ensures k == Some(Image) <==> !StartsWith(mimeType, "video/") && StartsWith(mimeType, "image/")
    ensures k.None? <==> !StartsWith(mimeType, "video/") && !StartsWith(mimeType, "image/")
  {
    if StartsWith(mimeType, "video/") then Some(Video)
    else if StartsWith(mimeType, "image/") then Some(Image)
    else None
  }

  /** No MIME type has both prefixes, so the order of the two checks never matters. */
  lemma PrefixesExclusive(mimeType: string)
    ensures !(StartsWith(mimeType, "video/") && StartsWith(mimeType, "image/"))
  {
  }

  /** An object URL made by the browser for a chosen file. */
  predicate IsObjectUrl(url: string)
  {
    StartsWith(url, "blob:")
  }

  /** The last value reported for one kind through its change callback, if any. */
  function Reported(events: seq<Event>, kind: MediaKind): Option<string>
  {
    if events == [] then None
    else
      var e := events[|events| - 1];
      if kind == Video && e.VideoChanged? then Some(e.url)
      else if kind == Image && e.ImageChanged? then Some(e.url)
      else Reported(events[..|events| - 1], kind)
  }

  /** Events that are not change callbacks leave the reported values as they were. */
  lemma {:induction false} ReportedSkips(events: seq<Event>, more: seq<Event>, kind: MediaKind)
    requires forall i :: 0 <= i < |more| ==> !more[i].VideoChanged? && !more[i].ImageChanged?
    ensures Reported(events + more, kind) == Reported(events, kind)
    decreases |more|
  {
    if more != [] {
      var init := more[..|more| - 1];
      var whole := events + more;
      var last := more[|more| - 1];
      assert !last.VideoChanged? && !last.ImageChanged?;
      assert whole[|whole| - 1] == last;
      assert whole[..|whole| - 1] == events + init;
      assert forall i :: 0 <= i < |init| ==> init[i] == more[i];
      ReportedSkips(events, init, kind);
      assert Reported(whole, kind) == Reported(whole[..|whole| - 1], kind);
    } else {
      assert events + more == events;
    }
  }

  /** What the parent was last told for a kind, after a change report for each kind. */
  lemma ReportedAfterPair(events: seq<Event>, video: string, image: string, tail: seq<Event>, first: MediaKind)
    requires forall i :: 0 <= i < |tail| ==> !tail[i].VideoChanged? && !tail[i].ImageChanged?
    ensures var pair := if first == Video then [VideoChanged(video), ImageChanged(image)]
                        else [ImageChanged(image), VideoChanged(video)];
            && Reported(events + pair + tail, Video) == Some(video)
            && Reported(events + pair + tail, Image) == Some(image)
  {
    var pair := if first == Video then [VideoChanged(video), ImageChanged(image)]
                else [ImageChanged(image), VideoChanged(video)];
    ReportedSkips(events + pair, tail, Video);
    ReportedSkips(events + pair, tail, Image);
    var whole := events + pair;
    assert whole[..|whole| - 1] == events + pair[..1];
  }

  class MediaPicker {
    var mediaType: Option<MediaKind>
    var preview: Option<string>
    var fileName: string
    /** Everything the picker has done outside its state, oldest first. */
    var events: seq<Event>

    /** The picker's kind and preview are set together, and whatever it has last reported
        to its parent agrees with them: the URL for the kind shown, "" for the other. */
    predicate Valid()
      reads this
    {
      && (mediaType.None? <==> preview.None?)
      && (Reported(events, Video).Some? <==> Reported(events, Image).Some?)
      && (Reported(events, Video).Some? ==>
            && Reported(events, Video).value == (if mediaType == Some(Video) then preview.value else "")
            && Reported(events, Image).value == (if mediaType == Some(Image) then preview.value else ""))
    }

    /** The initial state: a video value makes it a video, else an image value an image;
        the preview is the first non-empty of the two. */
    constructor (videoValue: string, imageValue: string)
      ensures mediaType == (if videoValue != "" then Some(Video) else if imageValue != "" then Some(Image) else None)
      ensures preview == (if videoValue != "" then Some(videoValue) else if imageValue != "" then Some(imageValue) else None)
      ensures fileName == "" && events == []
      ensures Valid()
    {
      mediaType := if videoValue != "" then Some(Video) else if imageValue != "" then Some(Image) else None;
      preview := if videoValue != "" then Some(videoValue) else if imageValue != "" then Some(imageValue) else None;
      fileName := "";
      events := [];
    }

    /** `handleFileChange`: nothing without a file; a file of another type only raises an
        alert; an accepted file becomes the preview (through `objectUrl`, the URL the browser
        makes for it), is reported to its kind's callback while the other kind is cleared,
        and is handed to `onFileSelect`. */
    method FileChange(file: Option<FileInfo>, objectUrl: string)
      requires Valid() && IsObjectUrl(objectUrl)
      modifies this
      ensures Valid()
      ensures file.None? ==> mediaType == old(mediaType) && preview == old(preview)
                             && fileName == old(fileName) && events == old(events)
      ensures file.Some? && Classify(file.value.mimeType).None? ==>
                && mediaType == old(mediaType) && preview == old(preview) && fileName == old(fileName)
                && events == old(events) + [Alerted(InvalidFileAlert)]
      ensures file.Some? && Classify(file.value.mimeType) == Some(Video) ==>
                && mediaType == Some(Video) && preview == Some(objectUrl) && fileName == file.value.name
                && events == old(events) + [VideoChanged(objectUrl), ImageChanged(""), FileSelected(file, Video)]
      ensures file.Some? && Classify(file.value.mimeType) == Some(Image) ==>
                && mediaType == Some(Image) && preview == Some(objectUrl) && fileName == file.value.name
                && events == old(events) + [ImageChanged(objectUrl), VideoChanged(""), FileSelected(file, Image)]
    {
      if file.None? {
        return;
      }
      var kind := Classify(file.value.mimeType);
      if kind.None? {
        ReportedSkips(events, [Alerted(InvalidFileAlert)], Video);
        ReportedSkips(events, [Alerted(InvalidFileAlert)], Image);
        events := events + [Alerted(InvalidFileAlert)];
        return;
      }
      var before := events;
      preview := Some(objectUrl);
      fileName := file.value.name;
      mediaType := kind;
      if kind == Some(Video) {
        events := events + [VideoChanged(objectUrl), ImageChanged("")];
      } else {
        events := events + [ImageChanged(objectUrl), VideoChanged("")];
      }
      events := events + [FileSelected(file, kind.value)];
      if kind == Some(Video) {
        ReportedAfterPair(before, objectUrl, "", [FileSelected(file, Video)], Video);
      } else {
        ReportedAfterPair(before, "", objectUrl, [FileSelected(file, Image)], Image);
      }
    }

    /** `handleRemove`: an object-URL preview is revoked first; then the picker is emptied,
        both values are reported as "", and `onFileSelect` hears `(null, 'video')`. */
    method Remove()
      requires Valid()
      modifies this
      ensures Valid()
      ensures mediaType.None? && preview.None? && fileName == ""
      ensures events == old(events)
                        + (if old(preview).Some? && IsObjectUrl(old(preview).value) then [Revoked(old(preview).value)] else [])
                        + [VideoChanged(""), ImageChanged(""), FileSelected(None, Video)]
    {
      var revoked: seq<Event> := [];
      if preview.Some? && IsObjectUrl(preview.value) {
        revoked := [Revoked(preview.value)];
      }
      var before := events + revoked;
      preview := None;
      fileName := "";
      mediaType := None;
      events := before + [VideoChanged(""), ImageChanged("")] + [FileSelected(None, Video)];
      ReportedAfterPair(before, "", "", [FileSelected(None, Video)], Video);
    }
  }
}
