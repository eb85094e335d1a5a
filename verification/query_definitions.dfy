/**
 * The property tables of vapi/query-definitions.h: named property codes, the
 * name of each code, and which properties apply to media items and media
 * containers.
 *
 * The codes are laid out in bands by D-Bus type (x = INT64, i = INT32,
 * o = OBJECT_PATH, s = STRING, a = ARRAY), each band opening at the constant
 * the header marks as the first of its type, so that a caller can bucket the
 * properties by wire type.
 */
module QueryDefinitions {

  import opened Wrappers

  // org.gnome.MediaObject2
  const PropParent: int := 31         // first o
  const PropType: int := 41           // first s
  const PropPath: int := 32
  const PropDisplayName: int := 42

  // org.gnome.MediaItem2
  const PropUrls: int := 51           // first a
  const PropMimeType: int := 43
  const PropSize: int := 1            // first x
  const PropArtist: int := 44
  const PropAlbum: int := 45
  const PropDate: int := 46
  const PropGenre: int := 47
  const PropDlnaProfile: int := 48
  // video and audio/music
  const PropDuration: int := 11       // first i
  const PropBitrate: int := 12
  const PropSampleRate: int := 13
  const PropBitsPerSample: int := 14
  // video and images
  const PropWidth: int := 15
  const PropHeight: int := 16
  const PropColorDepth: int := 17
  const PropPixelWidth: int := 18
  const PropPixelHeight: int := 19
  const PropThumbnail: int := 33
  // audio and music
  const PropAlbumArt: int := 34
  // music
  const PropTrackNumber: int := 20

  /** PROPERTIES: the D-Bus property name of each code, "" for an unused code;
      written band by band. */
  const Properties: seq<string> :=
    [""] +
    ["Size"] +
    ["", "", "", "", "", "", "", "", ""] +
    ["Duration", "Bitrate", "SampleRate", "BitsPerSample", "Width",
     "Height", "ColorDepth", "PixelWidth", "PixelHeight", "TrackNumber"] +
    ["", "", "", "", "", "", "", "", "", ""] +
    ["Parent", "Path", "Thumbnail", "AlbumArt"] +
    ["", "", "", "", "", ""] +
    ["Type", "DisplayName", "MIMEType", "Artist", "Album", "Date", "Genre", "DLNAProfile"] +
    ["", ""] +
    ["URLs"]

  /** The two kinds of media object, in the order of the rows of FILTER. */
  datatype ObjectKind = MediaItem | MediaContainer {
    function Row(): nat {
      match this
      case MediaItem => 0
      case MediaContainer => 1
    }
  }

  /** FILTER: 1 where a property applies to the kind of object of that row;
      each row is written as code 0 and then ten codes at a time. */
  const Filter: seq<seq<int>> := [
    // MediaItem
    [0] +
    [1, 0, 0, 0, 0, 0, 0, 0, 0, 0] +
    [1, 1, 1, 1, 1, 1, 1, 1, 1, 1] +
    [0, 0, 0, 0, 0, 0, 0, 0, 0, 0] +
    [1, 1, 1, 1, 0, 0, 0, 0, 0, 0] +
    [1, 1, 1, 1, 1, 1, 1, 0, 0, 0] +
    [1],
    // MediaContainer
    [0] +
    [0, 0, 0, 0, 0, 0, 0, 0, 0, 0] +
    [0, 0, 0, 0, 0, 0, 0, 0, 0, 0] +
    [0, 0, 0, 0, 0, 0, 0, 0, 0, 0] +
    [1, 1, 0, 0, 0, 0, 0, 0, 0, 0] +
    [1, 1, 0, 0, 0, 0, 0, 0, 0, 0] +
    [0]]

  /** The D-Bus types the property codes are banded by. */
  datatype DBusType = Int64 | Int32 | ObjectPath | String | Array {
    /** The position of this type's band in the order x, i, o, s, a. */
    function Rank(): nat {
      match this
      case Int64 => 0
      case Int32 => 1
      case ObjectPath => 2
      case String => 3
      case Array => 4
    }

    predicate IsInteger() { this == Int64 || this == Int32 }
  }

  /** A named constant: its code, the property name it stands for, and the
      D-Bus type of that property in the MediaObject2/MediaItem2 interfaces. */
  datatype Declaration = Declaration(code: int, name: string, typ: DBusType)

  /** Every named constant of the header, in the header's order and groups. */
  const Declarations: seq<Declaration> :=
    // org.gnome.MediaObject2
    [Declaration(PropParent, "Parent", ObjectPath),
     Declaration(PropType, "Type", String),
     Declaration(PropPath, "Path", ObjectPath),
     Declaration(PropDisplayName, "DisplayName", String)] +
    // org.gnome.MediaItem2
    [Declaration(PropUrls, "URLs", Array),
     Declaration(PropMimeType, "MIMEType", String),
     Declaration(PropSize, "Size", Int64),
     Declaration(PropArtist, "Artist", String),
     Declaration(PropAlbum, "Album", String),
     Declaration(PropDate, "Date", String),
     Declaration(PropGenre, "Genre", String),
     Declaration(PropDlnaProfile, "DLNAProfile", String)] +
    // video and audio/music
    [Declaration(PropDuration, "Duration", Int32),
     Declaration(PropBitrate, "Bitrate", Int32),
     Declaration(PropSampleRate, "SampleRate", Int32),
     Declaration(PropBitsPerSample, "BitsPerSample", Int32)] +
    // video and images
    [Declaration(PropWidth, "Width", Int32),
     Declaration(PropHeight, "Height", Int32),
     Declaration(PropColorDepth, "ColorDepth", Int32),
     Declaration(PropPixelWidth, "PixelWidth", Int32),
     Declaration(PropPixelHeight, "PixelHeight", Int32),
     Declaration(PropThumbnail, "Thumbnail", ObjectPath)] +
    // audio and music; music
    [Declaration(PropAlbumArt, "AlbumArt", ObjectPath),
     Declaration(PropTrackNumber, "TrackNumber", Int32)]

  predicate IsDeclared(code: int) {
    exists k | 0 <= k < |Declarations| :: Declarations[k].code == code
  }

  /** The codes from the first constant of each band to the last constant of
      that band: Size; Duration to TrackNumber; Parent to AlbumArt; Type to
      DLNAProfile; URLs. */
  predicate IsNamedCode(code: int) {
    code == PropSize ||
    PropDuration <= code <= PropTrackNumber ||
    PropParent <= code <= PropAlbumArt ||
    PropType <= code <= PropDlnaProfile ||
    code == PropUrls
  }

  /** The band a code falls in: from the constant marked first of a type up
      to the first of the next type; the last band ends with the table. */
  function Band(code: int): Option<DBusType>
  {
    if code < PropSize then None
    else if code < PropDuration then Some(Int64)
    else if code < PropParent then Some(Int32)
    else if code < PropType then Some(ObjectPath)
    else if code < PropUrls then Some(String)
    else if code < |Properties| then Some(Array)
    else None
  }

  // ---------------------------------------------------------------------------
  // Lookups

  /** The name of a property code, "" for an unused code. */
  function PropertyName(code: int): (name: string)
    requires 0 <= code < |Properties|
    ensures name != "" <==> IsNamedCode(code)
  {
    Properties[code]
  }

  /** Whether property `code` applies to objects of kind `kind`. */
  function IsApplicable(kind: ObjectKind, code: int): (r: bool)
    requires 0 <= code < |Properties|
    ensures r ==> PropertyName(code) != ""
  {
    TableShapes();
    Filter[kind.Row()][code] != 0
  }

  // ---------------------------------------------------------------------------
  // Facts about the tables

  /** Every code 0..51 indexes both PROPERTIES and each row of FILTER. */
  lemma TableShapes()
    ensures |Properties| == 52 && |Filter| == 2
    ensures forall row | 0 <= row < |Filter| :: |Filter[row]| == |Properties|
    ensures forall k | 0 <= k < |Declarations| :: 0 <= Declarations[k].code < |Properties|
  {
  }

  /** Each named constant indexes its own name. */
  lemma ConstantsIndexTheirNames()
    ensures forall k | 0 <= k < |Declarations| ::
      Properties[Declarations[k].code] == Declarations[k].name
    ensures Properties[PropSize] == "Size" && Properties[PropUrls] == "URLs"
    ensures Properties[PropTrackNumber] == "TrackNumber"
  {
  }

  /** No two named constants share a code. */
  lemma ConstantsDistinct()
    ensures |Declarations| == 24
    ensures forall k, l | 0 <= k < l < |Declarations| :: Declarations[k].code != Declarations[l].code
  {
  }

  /** The named codes are exactly the codes of the named constants. */
  lemma NamedCodesAreConstants(code: int)
    ensures IsNamedCode(code) <==> IsDeclared(code)
  {
    if IsNamedCode(code) {
      // where the header declares the constant for `code`
      var k :=
        if code == PropSize then 6
        else if code < PropTrackNumber then code + 1
        else if code == PropTrackNumber then 23
        else if code == PropParent then 0
        else if code == PropPath then 2
        else if code <= PropAlbumArt then code - 12
        else if code == PropType then 1
        else if code == PropDisplayName then 3
        else if code == PropMimeType then 5
        else if code <= PropDlnaProfile then code - 37
        else 4;
      assert Declarations[k].code == code;
    }
  }

  /** Every named constant lies in the band of its own D-Bus type. */
  lemma ConstantsInTheirBands()
    ensures forall k | 0 <= k < |Declarations| :: Band(Declarations[k].code) == Some(Declarations[k].typ)
  {
  }

  /** The bands follow the order x, i, o, s, a: a constant of an earlier type
      has a smaller code. */
  lemma BandsOrdered(k: nat, l: nat)
    requires k < |Declarations| && l < |Declarations|
    requires Declarations[k].typ.Rank() < Declarations[l].typ.Rank()
    ensures Declarations[k].code < Declarations[l].code
  {
    ConstantsInTheirBands();
  }

  /** Integer-typed codes come before all others. */
  lemma IntegersGrouped(k: nat, l: nat)
    requires k < |Declarations| && l < |Declarations|
    requires Declarations[k].typ.IsInteger() && !Declarations[l].typ.IsInteger()
    ensures Declarations[k].code < Declarations[l].code
  {
    BandsOrdered(k, l);
  }

  /** A MediaItem has every named property but DLNAProfile. */
  lemma MediaItemRow(code: int)
    requires 0 <= code < |Properties|
    ensures IsApplicable(MediaItem, code) <==> IsNamedCode(code) && code != PropDlnaProfile
  {
  }

  /** A MediaContainer has exactly the MediaObject2 properties Parent, Path,
      Type and DisplayName. */
  lemma MediaContainerRow(code: int)
    requires 0 <= code < |Properties|
    ensures IsApplicable(MediaContainer, code) <==>
      code in {PropParent, PropPath, PropType, PropDisplayName}
  {
  }

  /** Every property of a MediaContainer also applies to a MediaItem. */
  lemma ContainerWithinItem(code: int)
    requires 0 <= code < |Properties|
    ensures IsApplicable(MediaContainer, code) ==> IsApplicable(MediaItem, code)
  {
  }

  /** The lookups quoted as examples: Size is code 1 and applies to items only. */
  lemma SizeExample()
    ensures PropertyName(1) == "Size"
    ensures IsApplicable(MediaItem, 1) && !IsApplicable(MediaContainer, 1)
  {
  }
}
