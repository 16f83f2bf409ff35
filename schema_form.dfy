/** The form generator of the composition editor (apps/web/app/components/SchemaFormGenerator.tsx):
    it walks a zod object schema and picks, key by key, the input widget to show; it labels
    keys in Title Case; it enforces the one duration rule of the editor (a section lasts
    at least its narration plus one second); it builds the blank item an "Add" button appends
    to an array of objects; and it splits the top-level keys into fixed entries and
    re-orderable video sections. */
module SchemaForm {
  import opened Wrappers
  import opened Text
  import Sequences

  // ---------------------------------------------------------------------------
  // Schema descriptors
  // ---------------------------------------------------------------------------

  /** The zod schema nodes the generator distinguishes. */
  datatype ZodType =
    | ZString
    | ZNumber
    | ZBoolean
    | ZLiteral
    | ZEnum(values: seq<string>)
    | ZObject(shape: seq<Field>)
    | ZArray(element: ZodType)
    | ZOptional(inner: ZodType)
    | ZNullable(inner: ZodType)
    | ZEffects(schema: ZodType)
    | ZUnion(options: seq<ZodType>)

  /** One entry of an object shape, in declaration order. */
  datatype Field = Field(key: string, ty: ZodType)

  /** The `_def.typeName` strings of those nodes. */
  datatype TypeName =
    | ZodString | ZodNumber | ZodBoolean | ZodLiteral | ZodEnum | ZodObject | ZodArray
    | ZodOptional | ZodNullable | ZodEffects | ZodUnion

  /** `_def.typeName` of a node. */
  function NameOf(t: ZodType): TypeName
  {
    match t
    case ZString => ZodString
    case ZNumber => ZodNumber
    case ZBoolean => ZodBoolean
    case ZLiteral => ZodLiteral
    case ZEnum(_) => ZodEnum
    case ZObject(_) => ZodObject
    case ZArray(_) => ZodArray
    case ZOptional(_) => ZodOptional
    case ZNullable(_) => ZodNullable
    case ZEffects(_) => ZodEffects
    case ZUnion(_) => ZodUnion
  }

  /** The type names `getFieldType` looks through. */
  predicate IsWrapperName(n: TypeName)
  {
    n == ZodOptional || n == ZodNullable || n == ZodEffects
  }

  /** `getFieldType`: the type name under any optional, nullable and refinement wrappers,
      following the first option of a union. A node that is neither a wrapper nor a union
      answers with its own type name; the answer is never a wrapper name, and it is
      `ZodUnion` only when the search ends at a union without options. */
  function FieldType(t: ZodType): (r: TypeName)
    ensures !IsWrapperName(NameOf(t)) && !t.ZUnion? ==> r == NameOf(t)
    ensures !IsWrapperName(r)
    ensures r == ZodUnion ==> EndsAtEmptyUnion(t)
  {
    match t
    case ZOptional(inner) => FieldType(inner)
    case ZNullable(inner) => FieldType(inner)
    case ZUnion(options) => if |options| > 0 then FieldType(options[0]) else ZodUnion
    case ZEffects(schema) => FieldType(schema)
    case _ => NameOf(t)
  }

  /** Looking through wrappers and first options from `t` ends at a union without options. */
  predicate EndsAtEmptyUnion(t: ZodType)
  {
    match t
    case ZOptional(inner) => EndsAtEmptyUnion(inner)
    case ZNullable(inner) => EndsAtEmptyUnion(inner)
    case ZEffects(schema) => EndsAtEmptyUnion(schema)
    case ZUnion(options) => |options| == 0 || EndsAtEmptyUnion(options[0])
    case _ => false
  }

  /** One layer of wrapping that `getFieldType` looks through. */
  datatype Wrapper = Optional | Nullable | Refined | FirstOptionOf(others: seq<ZodType>)

  /** `t` wrapped in `ws`, innermost wrapper first. */
  function Wrap(t: ZodType, ws: seq<Wrapper>): ZodType
  {
    if ws == [] then t
    else
      var inner := Wrap(t, ws[..|ws| - 1]);
      match ws[|ws| - 1]
      case Optional => ZOptional(inner)
      case Nullable => ZNullable(inner)
      case Refined => ZEffects(inner)
      case FirstOptionOf(others) => ZUnion([inner] + others)
  }

  /** Marking a field optional, nullable or refined, or making it the first option of a
      union, any number of times, never changes the widget type the generator picks. */
  lemma {:induction false} FieldTypeIgnoresWrappers(t: ZodType, ws: seq<Wrapper>)
    ensures FieldType(Wrap(t, ws)) == FieldType(t)
  {
    if ws != [] {
      FieldTypeIgnoresWrappers(t, ws[..|ws| - 1]);
    }
  }

  /** A bare field type keeps its own type name under any stack of wrappers: the
      generator looks through them all to the innermost node. */
  lemma FieldTypeOfWrapped(t: ZodType, ws: seq<Wrapper>)
    requires !IsWrapperName(NameOf(t)) && !t.ZUnion?
    ensures FieldType(Wrap(t, ws)) == NameOf(t)
  {
    FieldTypeIgnoresWrappers(t, ws);
  }

  // ---------------------------------------------------------------------------
  // Labels
  // ---------------------------------------------------------------------------

  /** `.replace(/VideoUrl$/i, 'Video')`: a final "VideoUrl", in any case, becomes "Video". */
  function ReplaceVideoUrlSuffix(s: string): (r: string)
    ensures |s| >= 8 && Lower(s[|s| - 8..]) == "videourl" ==> r == s[..|s| - 8] + "Video"
    ensures !(|s| >= 8 && Lower(s[|s| - 8..]) == "videourl") ==> r == s
  {
    if |s| >= 8 && Lower(s[|s| - 8..]) == "videourl" then s[..|s| - 8] + "Video" else s
  }

  /** `.replace(/([A-Z])/g, " $1")`: a space before every capital letter. */
  function SpaceBeforeCapitals(s: string): string
  {
    if s == [] then [] else (if IsUpper(s[0]) then [' ', s[0]] else [s[0]]) + SpaceBeforeCapitals(s[1..])
  }

  /** In the spaced key every capital letter follows a space, removing the spaces gives
      back the key with its own spaces removed, and the first (when not a capital) and the
      last characters are kept. */
  lemma SpacedCapitals(s: string)
    ensures var r := SpaceBeforeCapitals(s);
            && (forall i :: 0 <= i < |r| && IsUpper(r[i]) ==> i > 0 && r[i - 1] == ' ')
            && Unspaced(r) == Unspaced(s)
            && (|s| > 0 && !IsUpper(s[0]) ==> |r| > 0 && r[0] == s[0])
            && (|s| > 0 ==> |r| > 0 && r[|r| - 1] == s[|s| - 1])
  {
    CapitalsFollowSpace(s);
    SpacingUnspaced(s);
    SpacingEnds(s);
  }

  lemma {:induction false} CapitalsFollowSpace(s: string)
    ensures forall i :: 0 <= i < |SpaceBeforeCapitals(s)| && IsUpper(SpaceBeforeCapitals(s)[i]) ==>
              i > 0 && SpaceBeforeCapitals(s)[i - 1] == ' '
  {
    if s != [] {
      CapitalsFollowSpace(s[1..]);
      var rest := SpaceBeforeCapitals(s[1..]);
      var head := if IsUpper(s[0]) then [' ', s[0]] else [s[0]];
      var r := head + rest;
      assert SpaceBeforeCapitals(s) == r;
      forall i | 0 <= i < |r| && IsUpper(r[i]) ensures i > 0 && r[i - 1] == ' ' {
        if i >= |head| {
          assert r[i] == rest[i - |head|];
          if i > |head| {
            var j := i - |head|;
            assert r[i - 1] == rest[j - 1];
          }
        } else {
          assert r[i] == head[i];
          if i > 0 { assert r[i - 1] == head[0]; }
        }
      }
    }
  }

  lemma {:induction false} SpacingUnspaced(s: string)
    ensures Unspaced(SpaceBeforeCapitals(s)) == Unspaced(s)
  {
    if s != [] {
      SpacingUnspaced(s[1..]);
      var head := if IsUpper(s[0]) then [' ', s[0]] else [s[0]];
      UnspacedConcat(head, SpaceBeforeCapitals(s[1..]));
      UnspacedConcat([s[0]], s[1..]);
      assert [s[0]] + s[1..] == s;
    }
  }

  lemma {:induction false} SpacingEnds(s: string)
    ensures var r := SpaceBeforeCapitals(s);
            && (|s| > 0 && !IsUpper(s[0]) ==> |r| > 0 && r[0] == s[0])
            && (|s| > 0 ==> |r| > 0 && r[|r| - 1] == s[|s| - 1])
  {
    if s != [] {
      SpacingEnds(s[1..]);
    }
  }

  /** `s` with every space removed. */
  function Unspaced(s: string): (r: string)
    ensures ' ' !in r
  {
    if s == [] then [] else (if s[0] == ' ' then [] else [s[0]]) + Unspaced(s[1..])
  }

  lemma {:induction false} UnspacedConcat(a: string, b: string)
    ensures Unspaced(a + b) == Unspaced(a) + Unspaced(b)
    decreases |a|
  {
    if a != [] {
      assert (a + b)[1..] == a[1..] + b;
      UnspacedConcat(a[1..], b);
    } else {
      assert a + b == b;
    }
  }

  /** The characters the regular-expression `.` does not match. */
  predicate IsLineTerminator(c: char)
  {
    c == '\n' || c == '\r' || c == '\U{2028}' || c == '\U{2029}'
  }

  /** `.replace(/^./, (s) => s.toUpperCase())`. */
  function CapitaliseFirst(s: string): (r: string)
    ensures |r| == |s|
    ensures |s| > 0 ==> r[1..] == s[1..]
    ensures |s| > 0 && !IsLineTerminator(s[0]) ==> r[0] == ToUpper(s[0])
  {
    if |s| > 0 && !IsLineTerminator(s[0]) then [ToUpper(s[0])] + s[1..] else s
  }

  /** `toTitleCase`: the label shown for a key. */
  function ToTitleCase(s: string): (r: string)
    ensures |r| > 0 ==> !IsWhitespace(r[0]) && !IsWhitespace(r[|r| - 1])
  {
    Trim(CapitaliseFirst(SpaceBeforeCapitals(ReplaceVideoUrlSuffix(s))))
  }

  /** A camelCase identifier: a lower-case first letter, then letters and digits. */
  predicate IsCamelCase(s: string)
  {
    |s| > 0 && IsLower(s[0])
    && forall i :: 0 <= i < |s| ==> IsLower(s[i]) || IsUpper(s[i]) || IsDigit(s[i])
  }

  /** For a camelCase key without a "VideoUrl" ending, the label is the key with its first
      letter capitalised and spaces inserted: removing the spaces gives the key back. */
  lemma TitleCaseOfCamelCase(s: string)
    requires IsCamelCase(s)
    requires !(|s| >= 8 && Lower(s[|s| - 8..]) == "videourl")
    ensures Unspaced(ToTitleCase(s)) == [ToUpper(s[0])] + s[1..]
  {
    TitleCaseIsCapitalisedSpacing(s);
    CapitalisedSpacingUnspaced(s);
  }

  /** For a camelCase key without a "VideoUrl" ending, `trim` has nothing to remove. */
  lemma TitleCaseIsCapitalisedSpacing(s: string)
    requires IsCamelCase(s)
    requires !(|s| >= 8 && Lower(s[|s| - 8..]) == "videourl")
    ensures ToTitleCase(s) == CapitaliseFirst(SpaceBeforeCapitals(s))
  {
    assert ReplaceVideoUrlSuffix(s) == s;
    CamelCaseSpacedEnds(s);
    CapitalisedEnds(SpaceBeforeCapitals(s));
    TrimOfTrimmed(CapitaliseFirst(SpaceBeforeCapitals(s)));
  }

  /** Capitalising a string that starts with a lower-case letter and does not end with
      white space leaves white space at neither end. */
  lemma CapitalisedEnds(t: string)
    requires |t| > 0 && IsLower(t[0]) && !IsWhitespace(t[|t| - 1])
    ensures var r := CapitaliseFirst(t);
            |r| > 0 && !IsWhitespace(r[0]) && !IsWhitespace(r[|r| - 1])
  {
    var r := CapitaliseFirst(t);
    if |t| > 1 {
      assert r[1..] == t[1..];
      assert r[|r| - 1] == r[1..][|r| - 2];
    }
  }

  lemma CapitalisedSpacingUnspaced(s: string)
    requires IsCamelCase(s)
    ensures Unspaced(CapitaliseFirst(SpaceBeforeCapitals(s))) == [ToUpper(s[0])] + s[1..]
  {
    var spaced := SpaceBeforeCapitals(s);
    CamelCaseSpacedEnds(s);
    var tail := spaced[1..];
    assert CapitaliseFirst(spaced) == [ToUpper(s[0])] + tail;
    UnspacedHead(ToUpper(s[0]), tail);
    SpacedTailUnspaced(s);
  }

  /** After its first character, the spaced camelCase key reads as the key once the
      spaces are removed. */
  lemma SpacedTailUnspaced(s: string)
    requires IsCamelCase(s)
    ensures |SpaceBeforeCapitals(s)| > 0 && Unspaced(SpaceBeforeCapitals(s)[1..]) == s[1..]
  {
    var spaced := SpaceBeforeCapitals(s);
    CamelCaseSpacedEnds(s);
    SpacingUnspaced(s);
    var tail := spaced[1..];
    assert spaced == [s[0]] + tail;
    UnspacedHead(s[0], tail);
    UnspacedHead(s[0], s[1..]);
    assert [s[0]] + s[1..] == s;
    CamelCaseHasNoSpace(s);
    NoSpaceUnspaced(s[1..]);
  }

  lemma CamelCaseHasNoSpace(s: string)
    requires IsCamelCase(s)
    ensures ' ' !in s && ' ' !in s[1..]
  {
  }

  /** Spacing a camelCase key keeps its first and last characters. */
  lemma CamelCaseSpacedEnds(s: string)
    requires IsCamelCase(s)
    ensures var spaced := SpaceBeforeCapitals(s);
            |spaced| > 0 && spaced[0] == s[0] && spaced[|spaced| - 1] == s[|s| - 1]
            && !IsWhitespace(spaced[|spaced| - 1]) && !IsWhitespace(ToUpper(s[0]))
  {
    SpacingEnds(s);
    assert IsLower(s[|s| - 1]) || IsUpper(s[|s| - 1]) || IsDigit(s[|s| - 1]);
  }

  lemma UnspacedHead(c: char, t: string)
    requires c != ' '
    ensures Unspaced([c] + t) == [c] + Unspaced(t)
  {
    UnspacedConcat([c], t);
  }

  /** `trim` leaves alone a string that neither starts nor ends with white space. */
  lemma TrimOfTrimmed(s: string)
    requires |s| > 0 && !IsWhitespace(s[0]) && !IsWhitespace(s[|s| - 1])
    ensures Trim(s) == s
  {
    assert LeadingSpace(s) == 0;
    assert TrailingSpace(s) == 0;
  }

  lemma {:induction false} NoSpaceUnspaced(s: string)
    requires ' ' !in s
    ensures Unspaced(s) == s
  {
    if s != [] {
      NoSpaceUnspaced(s[1..]);
    }
  }

  /** The drone-footage key is labelled "Drone Video": the "Url" ending is dropped. */
  lemma DroneVideoLabel()
    ensures ToTitleCase("droneVideoUrl") == "Drone Video"
  {
    DroneVideoSuffix();
    DroneVideoSpacing();
    DroneVideoCapitalised();
    DroneVideoTrimmed();
  }

  lemma DroneVideoTrimmed()
    ensures Trim("Drone Video") == "Drone Video"
  {
    TrimOfTrimmed("Drone Video");
  }

  lemma DroneVideoSuffix()
    ensures ReplaceVideoUrlSuffix("droneVideoUrl") == "droneVideo"
  {
    var s := "droneVideoUrl";
    assert s[|s| - 8..] == "VideoUrl";
    var l := Lower("VideoUrl");
    assert l[0] == 'v' && l[1] == 'i' && l[2] == 'd' && l[3] == 'e';
    assert l[4] == 'o' && l[5] == 'u' && l[6] == 'r' && l[7] == 'l';
    assert l == "videourl";
  }

  lemma DroneVideoSpacing()
    ensures SpaceBeforeCapitals("droneVideo") == "drone Video"
  {
    DroneVideoPieces();
    SpacingOneCapital("drone", 'V', "ideo");
  }

  /** A single capital between two runs without capitals gains one space before it. */
  lemma SpacingOneCapital(d: string, c: char, v: string)
    requires forall i :: 0 <= i < |d| ==> !IsUpper(d[i])
    requires forall i :: 0 <= i < |v| ==> !IsUpper(v[i])
    requires IsUpper(c)
    ensures SpaceBeforeCapitals((d + [c]) + v) == (d + [' ', c]) + v
  {
    SpacingConcat(d + [c], v);
    SpacingConcat(d, [c]);
    SpacingNoCapitals(d);
    SpacingNoCapitals(v);
    SpacingCapital(c);
  }

  lemma DroneVideoPieces()
    ensures "droneVideo" == ("drone" + ['V']) + "ideo"
    ensures ("drone" + [' ', 'V']) + "ideo" == "drone Video"
  {
  }

  lemma SpacingCapital(c: char)
    requires IsUpper(c)
    ensures SpaceBeforeCapitals([c]) == [' ', c]
  {
    assert [c][1..] == [];
  }

  lemma DroneVideoCapitalised()
    ensures CapitaliseFirst("drone Video") == "Drone Video"
  {
    var spaced := "drone Video";
    assert spaced[1..] == "rone Video";
    assert ['D'] + "rone Video" == "Drone Video";
  }

  /** Spacing distributes over concatenation. */
  lemma {:induction false} SpacingConcat(a: string, b: string)
    ensures SpaceBeforeCapitals(a + b) == SpaceBeforeCapitals(a) + SpaceBeforeCapitals(b)
    decreases |a|
  {
    if a != [] {
      assert (a + b)[1..] == a[1..] + b;
      SpacingConcat(a[1..], b);
    } else {
      assert a + b == b;
    }
  }

  /** A string without capitals is left unspaced. */
  lemma {:induction false} SpacingNoCapitals(s: string)
    requires forall i :: 0 <= i < |s| ==> !IsUpper(s[i])
    ensures SpaceBeforeCapitals(s) == s
  {
    if s != [] {
      SpacingNoCapitals(s[1..]);
    }
  }

  /** The "Add …" button of an array of objects: the key's label without a final "s". */
  function AddButtonLabel(key: string): (r: string)
    ensures StartsWith(r, "Add ")
  {
    var singular := if |key| > 0 && key[|key| - 1] == 's' then key[..|key| - 1] else key;
    "Add " + ToTitleCase(singular)
  }

  /** For a plural camelCase key, the Add button names the key without its final "s",
      first letter capitalised: removing the spaces gives "Add" followed by that word. */
  lemma AddButtonLabelOfPlural(singular: string)
    requires IsCamelCase(singular)
    requires !(|singular| >= 8 && Lower(singular[|singular| - 8..]) == "videourl")
    ensures Unspaced(AddButtonLabel(singular + "s")) == "Add" + [ToUpper(singular[0])] + singular[1..]
  {
    var title := ToTitleCase(singular);
    calc {
      Unspaced(AddButtonLabel(singular + "s"));
      == { AddButtonLabelDropsS(singular); }
      Unspaced("Add " + title);
      == { UnspacedAfterAdd(title); }
      "Add" + Unspaced(title);
      == { TitleCaseOfCamelCase(singular); }
      "Add" + ([ToUpper(singular[0])] + singular[1..]);
      "Add" + [ToUpper(singular[0])] + singular[1..];
    }
  }

  /** The Add button of a key ending in "s" is labelled after the key without it. */
  lemma AddButtonLabelDropsS(singular: string)
    ensures AddButtonLabel(singular + "s") == "Add " + ToTitleCase(singular)
  {
    var key := singular + "s";
    assert key[..|key| - 1] == singular;
  }

  /** The spaces dropped, "Add " loses only its space. */
  lemma UnspacedAfterAdd(t: string)
    ensures Unspaced("Add " + t) == "Add" + Unspaced(t)
  {
    UnspacedConcat("Add ", t);
    UnspacedOfAdd();
  }

  /** "Add " without its space. */
  lemma UnspacedOfAdd()
    ensures Unspaced("Add ") == "Add"
  {
    var d := "Add ";
    assert d == ['A'] + "dd " && "dd " == ['d'] + "d " && "d " == ['d'] + " ";
    assert Unspaced(" ") == [] by {
      assert " "[1..] == [];
    }
  }

  // ---------------------------------------------------------------------------
  // Widget choice (renderField)
  // ---------------------------------------------------------------------------

  /** What `renderField` shows for one key. `RenderFault` stands for the TypeError thrown
      when an object, array or enum schema sits under a wrapper, since the code then reads
      `shape`, `type` or `values` from the wrapper itself. An array whose object element
      sits under a wrapper reads the element's `shape` only per item, so with no items it
      still shows its label and Add button (`ItemlessArrayEditor`). */
  datatype Widget =
    | Hidden
    | TranscriptEditor
    | MapsPicker
    | Group(keys: seq<string>)
    | ArrayEditor(itemKeys: seq<string>)
    | ItemlessArrayEditor
    | EnumSelect(options: seq<string>)
    | Toggle
    | SectionDurationInput
    | DurationInput
    | NumberInput
    | VideoPicker
    | ImagePicker
    | TextInput
    | NoWidget
    | RenderFault

  /** Keys the form never shows: managed elsewhere or filled in automatically. */
  predicate IsManagedKey(key: string)
  {
    key == "sectionOrder" || key == "audioUrl" || key == "durationInSeconds" || key == "satelliteImageUrl"
  }

  function Keys(shape: seq<Field>): (ks: seq<string>)
    ensures |ks| == |shape| && forall i :: 0 <= i < |shape| ==> ks[i] == shape[i].key
  {
    seq(|shape|, i requires 0 <= i < |shape| => shape[i].key)
  }

  /** `renderField(key, zodType)`: the widget for one key; `items` is the length of the
      array the form holds under it, which only an array of objects looks at. */
  function RenderWidget(key: string, t: ZodType, items: nat): (w: Widget)
    ensures IsManagedKey(key) ==> w == Hidden
    ensures w == TranscriptEditor <==> !IsManagedKey(key) && key == "transcript" && FieldType(t) == ZodString
    ensures w == VideoPicker <==>
              !IsManagedKey(key) && key != "transcript" && FieldType(t) == ZodString && Contains(Lower(key), "video")
    ensures w == SectionDurationInput <==>
              !IsManagedKey(key) && FieldType(t) == ZodNumber && key == "sectionDurationInSeconds"
    ensures w == NoWidget ==> !IsManagedKey(key) && FieldType(t) in {ZodArray, ZodLiteral, ZodUnion}
    ensures w.ArrayEditor? <==> !IsManagedKey(key) && t.ZArray? && t.element.ZObject?
    ensures w.ArrayEditor? ==> w.itemKeys == Keys(t.element.shape)
    ensures !IsManagedKey(key) && t.ZArray? && FieldType(t.element) == ZodObject && !t.element.ZObject? ==>
              w == (if items == 0 then ItemlessArrayEditor else RenderFault)
  {
    var ft := FieldType(t);
    if IsManagedKey(key) then Hidden
    else if key == "transcript" && ft == ZodString then TranscriptEditor
    else if ft == ZodObject then
      match t
      case ZObject(shape) =>
        var ks := Keys(shape);
        if "lat" in ks && "lng" in ks && |ks| == 2 then MapsPicker else Group(ks)
      case _ => RenderFault
    else if ft == ZodArray then
      match t
      case ZArray(element) =>
        if FieldType(element) == ZodObject then
          match element
          case ZObject(itemShape) => ArrayEditor(Keys(itemShape))
          case _ => if items == 0 then ItemlessArrayEditor else RenderFault
        else NoWidget
      case _ => RenderFault
    else if ft == ZodEnum then
      match t
      case ZEnum(values) => EnumSelect(values)
      case _ => RenderFault
    else if ft == ZodBoolean then Toggle
    else if ft == ZodNumber then
      if key == "sectionDurationInSeconds" then SectionDurationInput
      else if Contains(Lower(key), "duration") then DurationInput
      else NumberInput
    else if ft == ZodString then
      if Contains(Lower(key), "video") then VideoPicker
      else if Contains(Lower(key), "image") then ImagePicker
      else TextInput
    else NoWidget
  }

  // ---------------------------------------------------------------------------
  // The section-duration rule
  // ---------------------------------------------------------------------------

  /** JavaScript truthiness of an optional number: present and non-zero. */
  predicate Truthy(x: Option<real>)
  {
    x.Some? && x.value != 0.0
  }

  /** `minDuration`: the minimum shown next to the section-duration input, narration
      length plus one second when a narration length is set, else 0. */
  function MinDuration(audioDuration: Option<real>): (m: real)
    ensures Truthy(audioDuration) ==> m == audioDuration.value + 1.0
    ensures !Truthy(audioDuration) ==> m == 0.0
  {
    if Truthy(audioDuration) then audioDuration.value + 1.0 else 0.0
  }

  /** The verdict of the field's `validate` rule; a rejection carries the minimum its
      message states. */
  datatype Verdict = Accept | Reject(minRequired: real)

  /** The section-duration `validate` rule. */
  function ValidateSectionDuration(value: Option<real>, audioDuration: Option<real>): (v: Verdict)
    ensures !Truthy(value) ==> v == Accept
    ensures !(audioDuration.Some? && audioDuration.value > 0.0) ==> v == Accept
    ensures v.Reject? <==>
              Truthy(value) && audioDuration.Some? && audioDuration.value > 0.0
              && value.value < MinDuration(audioDuration)
    ensures v.Reject? ==> v.minRequired == MinDuration(audioDuration)
  {
    if !Truthy(value) then Accept
    else if !Truthy(audioDuration) || audioDuration.value <= 0.0 then Accept
    else
      var minRequired := audioDuration.value + 1.0;
      if value.value < minRequired then Reject(minRequired) else Accept
  }

  /** With a narration, every set value below narration + 1 s is rejected and every value
      at or above it is accepted: the minimum shown and the minimum enforced agree. */
  lemma {:induction false} ShownMinimumIsEnforced(value: real, audio: real)
    requires audio > 0.0 && value != 0.0
    ensures ValidateSectionDuration(Some(value), Some(audio)).Accept? <==> value >= MinDuration(Some(audio))
    ensures MinDuration(Some(audio)) == audio + 1.0
  {
  }

  /** A negative narration length (which the shared schema never admits) would still
      advertise `audio + 1` as minimum while the rule enforces nothing. */
  lemma NegativeNarrationMinimumNotEnforced(value: real, audio: real)
    requires audio < 0.0
    ensures MinDuration(Some(audio)) == audio + 1.0
    ensures ValidateSectionDuration(Some(value), Some(audio)) == Accept
  {
  }

  // ---------------------------------------------------------------------------
  // Arrays of objects
  // ---------------------------------------------------------------------------

  /** A value of a form field. */
  datatype FieldValue = Str(s: string) | Num(n: real) | Bool(b: bool)

  predicate DistinctKeys(shape: seq<Field>)
  {
    forall i, j :: 0 <= i < j < |shape| ==> shape[i].key != shape[j].key
  }

  /** The blank value the "Add" button puts under a field: "" for a string, 0 for a
      number, false for a boolean; other fields get none. */
  function BlankValue(t: ZodType): (v: Option<FieldValue>)
    ensures v.Some? <==> FieldType(t) in {ZodString, ZodNumber, ZodBoolean}
    ensures FieldType(t) == ZodString ==> v == Some(Str(""))
    ensures FieldType(t) == ZodNumber ==> v == Some(Num(0.0))
    ensures FieldType(t) == ZodBoolean ==> v == Some(Bool(false))
  {
    match FieldType(t)
    case ZodString => Some(Str(""))
    case ZodNumber => Some(Num(0.0))
    case ZodBoolean => Some(Bool(false))
    case _ => None
  }

  /** The blank entry the "Add" button builds for an item shape: every field that has a
      blank value gets it, and no other key is present. */
  method DefaultItem(shape: seq<Field>) returns (item: map<string, FieldValue>)
    requires DistinctKeys(shape)
    ensures forall k :: k in item ==> k in Keys(shape)
    ensures forall i :: 0 <= i < |shape| ==> (shape[i].key in item <==> BlankValue(shape[i].ty).Some?)
    ensures forall i :: 0 <= i < |shape| && shape[i].key in item ==> item[shape[i].key] == BlankValue(shape[i].ty).value
  {
    item := map[];
    var n := 0;
    while n < |shape|
      invariant 0 <= n <= |shape|
      invariant forall k :: k in item ==> exists i :: 0 <= i < n && shape[i].key == k
      invariant forall i :: 0 <= i < n ==> (shape[i].key in item <==> BlankValue(shape[i].ty).Some?)
      invariant forall i :: 0 <= i < n && shape[i].key in item ==> item[shape[i].key] == BlankValue(shape[i].ty).value
    {
      assert forall i :: 0 <= i < n ==> shape[i].key != shape[n].key;
      var blank := BlankValue(shape[n].ty);
      if blank.Some? {
        item := item[shape[n].key := blank.value];
      }
      n := n + 1;
    }
  }

  /** The "Add" button: the current items (none when the field is unset) followed by one
      blank item. */
  method AddItem(current: Option<seq<map<string, FieldValue>>>, shape: seq<Field>)
    returns (updated: seq<map<string, FieldValue>>)
    requires DistinctKeys(shape)
    ensures |updated| == |current.GetOr([])| + 1
    ensures updated[..|updated| - 1] == current.GetOr([])
    ensures forall i :: 0 <= i < |shape| ==> (shape[i].key in updated[|updated| - 1] <==> BlankValue(shape[i].ty).Some?)
    ensures forall i :: 0 <= i < |shape| && shape[i].key in updated[|updated| - 1] ==>
              updated[|updated| - 1][shape[i].key] == BlankValue(shape[i].ty).value
    ensures forall k :: k in updated[|updated| - 1] ==> k in Keys(shape)
  {
    var item := DefaultItem(shape);
    updated := current.GetOr([]) + [item];
  }

  // ---------------------------------------------------------------------------
  // Sections and their order
  // ---------------------------------------------------------------------------

  /** `sectionOrder?.includes(key)`: false when there is no order. */
  predicate InOrder(order: Option<seq<string>>, key: string)
  {
    order.Some? && key in order.value
  }

  predicate IsSectionEntry(order: Option<seq<string>>, e: Field)
  {
    FieldType(e.ty) == ZodObject && InOrder(order, e.key)
  }

  predicate IsPlainEntry(order: Option<seq<string>>, e: Field)
  {
    e.key != "sectionOrder" && !IsSectionEntry(order, e)
  }

  /** `nonSectionEntries`: the entries shown in fixed position. */
  function PlainEntries(entries: seq<Field>, order: Option<seq<string>>): seq<Field>
  {
    Sequences.Filter(entries, e => IsPlainEntry(order, e))
  }

  /** `sectionEntries`: the object entries named in the section order. */
  function SectionEntries(entries: seq<Field>, order: Option<seq<string>>): seq<Field>
  {
    Sequences.Filter(entries, e => IsSectionEntry(order, e))
  }

  /** Every entry other than "sectionOrder" is shown exactly once: as a fixed entry or as a
      section, never both, never neither. The "sectionOrder" entry is never a fixed entry. */
  lemma PartitionIsExact(entries: seq<Field>, order: Option<seq<string>>, e: Field)
    requires e in entries
    ensures e.key != "sectionOrder" ==> (e in PlainEntries(entries, order) <==> e !in SectionEntries(entries, order))
    ensures e.key == "sectionOrder" ==> e !in PlainEntries(entries, order)
  {
  }

  /** `orderedSectionKeys`: with an order and a reorder callback, the order's keys that are
      sections, in the order's order; otherwise the section keys in schema order. */
  function OrderedSectionKeys(entries: seq<Field>, order: Option<seq<string>>, hasOrderCallback: bool)
    : seq<string>
  {
    var sectionKeys := Keys(SectionEntries(entries, order));
    if order.Some? && hasOrderCallback then Sequences.Filter(order.value, k => k in sectionKeys)
    else sectionKeys
  }

  /** The ordering neither hides a section nor invents one: its keys are exactly the
      section keys. */
  lemma OrderedKeysAreSectionKeys(entries: seq<Field>, order: Option<seq<string>>, hasOrderCallback: bool, k: string)
    ensures k in OrderedSectionKeys(entries, order, hasOrderCallback) <==> k in Keys(SectionEntries(entries, order))
  {
    var sections := SectionEntries(entries, order);
    if order.Some? && hasOrderCallback && k in Keys(sections) {
      var i :| 0 <= i < |sections| && Keys(sections)[i] == k;
      assert sections[i] in sections;
    }
  }

  /** With an order and a callback, the keys follow the order: the sections named in a
      front part of the order come before those named in the rest. */
  lemma OrderedKeysFollowOrder(entries: seq<Field>, front: seq<string>, back: seq<string>)
    ensures var order := Some(front + back);
            var sectionKeys := Keys(SectionEntries(entries, order));
            OrderedSectionKeys(entries, order, true)
              == Sequences.Filter(front, k => k in sectionKeys) + Sequences.Filter(back, k => k in sectionKeys)
  {
    var order := Some(front + back);
    var sectionKeys := Keys(SectionEntries(entries, order));
    Sequences.FilterConcat(front, back, k => k in sectionKeys);
  }

  /** The accordion item open at first: the first fixed entry, else the first section. */
  function DefaultOpen(entries: seq<Field>, order: Option<seq<string>>, hasOrderCallback: bool): (r: Option<string>)
    ensures r.Some? ==> r.value in Keys(PlainEntries(entries, order)) || r.value in OrderedSectionKeys(entries, order, hasOrderCallback)
    ensures r.None? ==> PlainEntries(entries, order) == [] && OrderedSectionKeys(entries, order, hasOrderCallback) == []
    ensures |PlainEntries(entries, order)| > 0 ==> r == Some(PlainEntries(entries, order)[0].key)
    ensures PlainEntries(entries, order) == [] && |OrderedSectionKeys(entries, order, hasOrderCallback)| > 0 ==>
              r == Some(OrderedSectionKeys(entries, order, hasOrderCallback)[0])
  {
    var plain := PlainEntries(entries, order);
    var ordered := OrderedSectionKeys(entries, order, hasOrderCallback);
    if |plain| > 0 then
      assert Keys(plain)[0] == plain[0].key;
      Some(plain[0].key)
    else if |ordered| > 0 then Some(ordered[0])
    else None
  }

  /** `hasDnd`: drag-and-drop is offered when an order (even an empty one) and a callback are
      given and at least one section is listed. */
  function HasDragAndDrop(entries: seq<Field>, order: Option<seq<string>>, hasOrderCallback: bool): (r: bool)
    ensures r <==> order.Some? && hasOrderCallback && |SectionEntries(entries, order)| > 0
  {
    var ordered := OrderedSectionKeys(entries, order, hasOrderCallback);
    var sections := SectionEntries(entries, order);
    if order.Some? && hasOrderCallback && |ordered| > 0 then
      OrderedKeysAreSectionKeys(entries, order, hasOrderCallback, ordered[0]);
      true
    else if order.Some? && hasOrderCallback && |sections| > 0 then
      OrderedKeysAreSectionKeys(entries, order, hasOrderCallback, Keys(sections)[0]);
      false
    else
      false
  }

  /** The section `onDragEnd`: no change without a drop target or when dropped on itself;
      otherwise the new order is the listed keys with the dragged one moved to the drop
      position. */
  function SectionDragEnd(ordered: seq<string>, active: string, over: Option<string>): (r: Option<seq<string>>)
    requires active in ordered
    requires over.Some? ==> over.value in ordered
    ensures over.None? || over.value == active ==> r.None?
    ensures r.Some? ==> |r.value| == |ordered| && multiset(r.value) == multiset(ordered)
    ensures r.Some? ==> exists k :: 0 <= k < |ordered| && ordered[k] == over.value && r.value[k] == active
    ensures r.None? <==> over.None? || over.value == active
    ensures r.Some? ==> forall from, to ::
              Sequences.IsFirstIndex(ordered, active, from) && Sequences.IsFirstIndex(ordered, over.value, to) ==>
                r.value[to] == active && Sequences.WithoutIndex(r.value, to) == Sequences.WithoutIndex(ordered, from)
  {
    if over.Some? && active != over.value then
      var from := Sequences.FindIndex(ordered, k => k == active);
      var to := Sequences.FindIndex(ordered, k => k == over.value);
      assert Sequences.IsFirstIndex(ordered, active, from);
      assert Sequences.IsFirstIndex(ordered, over.value, to);
      Sequences.FirstIndexUnique(ordered, active, from);
      Sequences.FirstIndexUnique(ordered, over.value, to);
      Some(Sequences.ArrayMove(ordered, from, to))
    else None
  }
}
