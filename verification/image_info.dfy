/** Image metadata helpers of `geocamUtil/imageInfo.py`: focal lengths in
    pixels per meter, the overlay content-type check, the image name and id
    taken from a URL, attribute access on a `dotdict`, and the line parser
    that turns the JSC image information text into the extras dictionary.
    Python's `float()` is the parameter `parseFloat`, whose `None` stands for
    the ValueError it raises. */
module ImageInfo {
  import opened Wrappers
  import Strings

  // ---------------------------------------------------------------------
  // getAccurateFocalLengths

  /** `getAccurateFocalLengths(imageSize, focalLength, sensorSize)`: the
      focal length, given in millimeters, scaled by the pixels per meter of
      the sensor along each axis. A zero sensor dimension raises
      ZeroDivisionError. Each component is the number that, multiplied by
      the sensor dimension in millimeters, gives image pixels times the
      focal length. */
  function AccurateFocalLengths(imageSize: (real, real), focalLength: real, sensorSize: (real, real)): (r: Result<(real, real)>)
    ensures r.Err? <==> sensorSize.0 == 0.0 || sensorSize.1 == 0.0
    ensures r.Err? ==> r.error == ZeroDivisionError
    ensures r.Ok? ==>
      && r.value.0 * (sensorSize.0 * 1000.0) == imageSize.0 * focalLength
      && r.value.1 * (sensorSize.1 * 1000.0) == imageSize.1 * focalLength
  {
    var f := focalLength / 1000.0;
    if sensorSize.0 == 0.0 || sensorSize.1 == 0.0 then Err(ZeroDivisionError)
    else
      var x := imageSize.0 / sensorSize.0 * f;
      var y := imageSize.1 / sensorSize.1 * f;
      PerMeterScale(imageSize.0, sensorSize.0, focalLength);
      PerMeterScale(imageSize.1, sensorSize.1, focalLength);
      Ok((x, y))
  }

  lemma PerMeterScale(pixels: real, sensor: real, focalLength: real)
    requires sensor != 0.0
    ensures pixels / sensor * (focalLength / 1000.0) * (sensor * 1000.0) == pixels * focalLength
  {
    var q := pixels / sensor;
    assert q * sensor == pixels;
    assert focalLength / 1000.0 * 1000.0 == focalLength;
    calc {
      q * (focalLength / 1000.0) * (sensor * 1000.0);
      (q * sensor) * (focalLength / 1000.0 * 1000.0);
      pixels * focalLength;
    }
  }

  /** The x component depends only on the widths and the y component only
      on the heights. */
  lemma FocalAxesIndependent(size1: (real, real), size2: (real, real), focalLength: real, sensor1: (real, real), sensor2: (real, real))
    requires AccurateFocalLengths(size1, focalLength, sensor1).Ok?
    requires AccurateFocalLengths(size2, focalLength, sensor2).Ok?
    ensures size1.0 == size2.0 && sensor1.0 == sensor2.0 ==>
      AccurateFocalLengths(size1, focalLength, sensor1).value.0 == AccurateFocalLengths(size2, focalLength, sensor2).value.0
    ensures size1.1 == size2.1 && sensor1.1 == sensor2.1 ==>
      AccurateFocalLengths(size1, focalLength, sensor1).value.1 == AccurateFocalLengths(size2, focalLength, sensor2).value.1
  {
  }

  /** Scaling the image width by `k` scales the x focal length by `k`; in
      particular doubling the width doubles it. */
  lemma FocalScalesWithWidth(k: real, size: (real, real), focalLength: real, sensor: (real, real))
    requires sensor.0 != 0.0 && sensor.1 != 0.0
    ensures AccurateFocalLengths((k * size.0, size.1), focalLength, sensor).value.0
         == k * AccurateFocalLengths(size, focalLength, sensor).value.0
  {
    var f := focalLength / 1000.0;
    var q := size.0 / sensor.0;
    assert q * sensor.0 == size.0;
    assert (k * q) * sensor.0 == k * size.0;
    assert k * size.0 / sensor.0 == k * q;
  }

  // ---------------------------------------------------------------------
  // validOverlayContentType

  /** `validOverlayContentType`, with `settings.PDF_IMPORT_ENABLED` and
      `settings.PDF_MIME_TYPES` as parameters: accepted when PDF import is
      enabled and the type is a PDF type, or when the type starts with
      `image/`. A missing type (`None`) that is not accepted as a PDF type
      raises AttributeError at `startswith`. */
  function ValidOverlayContentType(contentType: Option<string>, pdfImportEnabled: bool, pdfMimeTypes: seq<string>): (r: Result<bool>)
    ensures r == Ok(true) <==>
      contentType.Some? && ((pdfImportEnabled && contentType.value in pdfMimeTypes) || "image/" <= contentType.value)
    ensures r.Err? <==> contentType.None?
    ensures r.Err? ==> r.error == AttributeError
  {
    if pdfImportEnabled && contentType.Some? && contentType.value in pdfMimeTypes then Ok(true)
    else if contentType.None? then Err(AttributeError)
    else Ok("image/" <= contentType.value)
  }

  /** Enabling PDF import adds exactly the PDF types to what is accepted. */
  lemma PdfImportOnlyAddsPdfTypes(contentType: string, pdfMimeTypes: seq<string>)
    ensures ValidOverlayContentType(Some(contentType), true, pdfMimeTypes) == Ok(true) <==>
      ValidOverlayContentType(Some(contentType), false, pdfMimeTypes) == Ok(true) || contentType in pdfMimeTypes
    ensures contentType !in pdfMimeTypes ==>
      ValidOverlayContentType(Some(contentType), true, pdfMimeTypes) == ValidOverlayContentType(Some(contentType), false, pdfMimeTypes)
  {
  }

  // ---------------------------------------------------------------------
  // dotdict

  /** `dotdict.__getattr__`: `dict.get`, so a missing key and a key whose
      value is `None` both read as `None`. */
  function GetAttr<V>(d: map<string, Option<V>>, attr: string): (r: Option<V>)
    ensures r.Some? <==> attr in d && d[attr].Some?
    ensures r.Some? ==> d[attr] == r
  {
    if attr in d then d[attr] else None
  }

  /** `dotdict.__setattr__`, which is `dict.__setitem__`: the attribute
      reads back as the value stored, and the other keys keep theirs. */
  function SetAttr<V>(d: map<string, Option<V>>, attr: string, v: Option<V>): (r: map<string, Option<V>>)
    ensures GetAttr(r, attr) == v
    ensures r.Keys == d.Keys + {attr}
    ensures forall k :: k in d && k != attr ==> r[k] == d[k]
  {
    d[attr := v]
  }

  /** `dotdict.__delattr__`, which is `dict.__delitem__`: KeyError on a
      missing key, otherwise the key is gone and the others keep their
      values. */
  function DelAttr<V>(d: map<string, Option<V>>, attr: string): (r: Result<map<string, Option<V>>>)
    ensures r.Err? <==> attr !in d
    ensures r.Err? ==> r.error == KeyError
    ensures r.Ok? ==> r.value.Keys == d.Keys - {attr} && GetAttr(r.value, attr) == None
    ensures r.Ok? ==> forall k :: k in r.value ==> r.value[k] == d[k]
  {
    if attr !in d then Err(KeyError) else Ok(d - {attr})
  }

  // ---------------------------------------------------------------------
  // The name and id of an image URL in getImageFile

  /** `imageUrl.split('/')[-1]`: the part of the URL after its last `/`, or
      the whole URL when it has none. */
  function ImageName(url: string): (name: string)
    ensures '/' !in name
    ensures Strings.IsFreeSuffix(url, name, '/')
  {
    Strings.SplitLast(url, '/');
    Strings.Last(Strings.Split(url, '/'))
  }

  const EolHost: string := "eol.jsc.nasa.gov"
  const EoWebHost: string := "eo-web.jsc.nasa.gov"

  /** The image id of `getImageFile`: for a URL on an EOL host, the image
      name up to its first `.`; `None` for any other URL. */
  function ImageId(url: string): (id: Option<string>)
    ensures id.Some? <==> Strings.Contains(url, EolHost) || Strings.Contains(url, EoWebHost)
    ensures id.Some? ==>
      && '.' !in id.value
      && id.value <= ImageName(url)
      && (|id.value| < |ImageName(url)| ==> ImageName(url)[|id.value|] == '.')
  {
    if Strings.Contains(url, EolHost) || Strings.Contains(url, EoWebHost) then
      Some(Strings.Split(ImageName(url), '.')[0])
    else
      None
  }

  /** A URL on an EOL host that ends in `/` has an empty image name and an
      empty id, not `None`. */
  lemma ImageIdOfDirectory(url: string)
    requires url != [] && url[|url| - 1] == '/'
    requires Strings.Contains(url, EolHost)
    ensures ImageName(url) == "" && ImageId(url) == Some("")
  {
  }

  // ---------------------------------------------------------------------
  // constructExtrasDict

  /** A value of the extras dictionary: text, or a number from `float()`. */
  datatype Value = Text(text: string) | Number(x: real)

  /** The 13 keys of the extras dictionary; `Name` gives each one's Python
      key, and `NamesDistinct` shows that no two fields share one. */
  datatype Field =
    | Id | NadirLat | NadirLon | CenterLat | CenterLon | Altitude | Azimuth | SunElevationDeg
    | FocalLengthUnitless | FocalLength | Camera | AcquisitionDate | AcquisitionTime

  function Name(f: Field): string
  {
    match f
    case Id => "id"
    case NadirLat => "nadirLat"
    case NadirLon => "nadirLon"
    case CenterLat => "centerLat"
    case CenterLon => "centerLon"
    case Altitude => "altitude"
    case Azimuth => "azimuth"
    case SunElevationDeg => "sunElevationDeg"
    case FocalLengthUnitless => "focalLength_unitless"
    case FocalLength => "focalLength"
    case Camera => "camera"
    case AcquisitionDate => "acquisitionDate"
    case AcquisitionTime => "acquisitionTime"
  }

  /** Distinct fields stand for distinct Python keys, so the 13 fields are
      the 13 entries of the dictionary literal. */
  lemma NamesDistinct(f: Field, g: Field)
    ensures Name(f) == Name(g) <==> f == g
  {
  }

  const AllFields: set<Field> :=
    {Id, NadirLat, NadirLon, CenterLat, CenterLon, Altitude, Azimuth, SunElevationDeg,
     FocalLengthUnitless, FocalLength, Camera, AcquisitionDate, AcquisitionTime}

  /** The fields that hold text; all others hold numbers. */
  predicate IsTextField(f: Field)
  {
    f == Id || f == Camera || f == AcquisitionDate || f == AcquisitionTime
  }

  /** The extras dictionary; `None` is Python's `None`. */
  type Extras = map<Field, Option<Value>>

  /** Miles to meters, the factor the altitude branch multiplies by. */
  const MetersPerMile: real := 1609.34

  const NadirKey: string := "Nadir latitude,longitude in degrees"
  const CenterKey: string := "Center point latitude,longitude in degrees"
  const AltitudeKey: string := "Spacecraft altitude in nautical miles"
  const AzimuthKey: string := "Sun azimuth"
  const SunElevationKey: string := "Sun elevation angle"
  const FocalLengthKey: string := "Focal length in millimeters"
  const CameraKey: string := "Camera"

  /** The dictionary before any line is read: all 13 keys, all `None`. */
  function InitialExtras(): (d: Extras)
    ensures d.Keys == AllFields
    ensures forall f :: f in d ==> d[f] == None
  {
    map f | f in AllFields :: None
  }

  /** The branch of the `if`/`elif` chain a key selects; the first test that
      holds wins. */
  datatype Branch =
    | OnPhoto | OnNadir | OnCenter | OnAltitude | OnAzimuth | OnSunElevation | OnFocalLength | OnCamera
    | OnPhotoDate | OnPhotoTime | OnOther

  /** The test of a branch of the chain; `OnOther` is falling through. */
  predicate Holds(b: Branch, key: string)
  {
    match b
    case OnPhoto => key == "Photo"
    case OnNadir => Strings.Contains(key, NadirKey)
    case OnCenter => Strings.Contains(key, CenterKey)
    case OnAltitude => Strings.Contains(key, AltitudeKey)
    case OnAzimuth => Strings.Contains(key, AzimuthKey)
    case OnSunElevation => Strings.Contains(key, SunElevationKey)
    case OnFocalLength => Strings.Contains(key, FocalLengthKey)
    case OnCamera => Strings.Contains(key, CameraKey)
    case OnPhotoDate => key == "Photo Date"
    case OnPhotoTime => key == "Photo Time"
    case OnOther => true
  }

  /** The position of a branch's test in the chain. */
  function Rank(b: Branch): nat
  {
    match b
    case OnPhoto => 0
    case OnNadir => 1
    case OnCenter => 2
    case OnAltitude => 3
    case OnAzimuth => 4
    case OnSunElevation => 5
    case OnFocalLength => 6
    case OnCamera => 7
    case OnPhotoDate => 8
    case OnPhotoTime => 9
    case OnOther => 10
  }

  /** The branch a key selects: the first one in chain order whose test
      holds. */
  function Classify(key: string): (b: Branch)
    ensures Holds(b, key)
    ensures forall e :: Rank(e) < Rank(b) ==> !Holds(e, key)
  {
    if key == "Photo" then OnPhoto
    else if Strings.Contains(key, NadirKey) then OnNadir
    else if Strings.Contains(key, CenterKey) then OnCenter
    else if Strings.Contains(key, AltitudeKey) then OnAltitude
    else if Strings.Contains(key, AzimuthKey) then OnAzimuth
    else if Strings.Contains(key, SunElevationKey) then OnSunElevation
    else if Strings.Contains(key, FocalLengthKey) then OnFocalLength
    else if Strings.Contains(key, CameraKey) then OnCamera
    else if key == "Photo Date" then OnPhotoDate
    else if key == "Photo Time" then OnPhotoTime
    else OnOther
  }

  /** The fields a branch may assign. */
  function Touched(b: Branch): set<Field>
  {
    match b
    case OnPhoto => {Id}
    case OnNadir => {NadirLat, NadirLon}
    case OnCenter => {CenterLat, CenterLon}
    case OnAltitude => {Altitude}
    case OnAzimuth => {Azimuth}
    case OnSunElevation => {SunElevationDeg}
    case OnFocalLength => {FocalLengthUnitless}
    case OnCamera => {Camera}
    case OnPhotoDate => {AcquisitionDate}
    case OnPhotoTime => {AcquisitionTime}
    case OnOther => {}
  }

  /** `float(s.strip())`, or `None` when `float` raises. */
  function ParseNumber(s: string, parseFloat: string -> Option<real>): Option<real>
  {
    parseFloat(Strings.Strip(s))
  }

  /** The `try` body of a branch that stores `float(value[0].strip())` in
      `field`; a failing `float` changes nothing. */
  function SetNumber(d: Extras, field: Field, first: string, parseFloat: string -> Option<real>): Extras
  {
    var x := ParseNumber(first, parseFloat);
    if x.None? then d else d[field := Some(Number(x.value))]
  }

  /** The altitude branch: the number of miles times `MetersPerMile`. */
  function SetAltitude(d: Extras, first: string, parseFloat: string -> Option<real>): Extras
  {
    var x := ParseNumber(first, parseFloat);
    if x.None? then d else d[Altitude := Some(Number(x.value * MetersPerMile))]
  }

  /** The `try` body of the nadir branch: `value[0]` is stripped and split
      on `,`, and each piece is stripped and parsed. */
  function SetNadir(d: Extras, first: string, parseFloat: string -> Option<real>): Extras
  {
    var pieces := Strings.Split(Strings.Strip(first), ',');
    StoreNadir(d, ParseNumber(pieces[0], parseFloat), if |pieces| < 2 then None else ParseNumber(pieces[1], parseFloat))
  }

  /** The nadir stores: the latitude is stored as soon as it parses, before
      the longitude is looked at. */
  function StoreNadir(d: Extras, lat: Option<real>, lon: Option<real>): Extras
  {
    if lat.None? then d
    else
      var withLat := d[NadirLat := Some(Number(lat.value))];
      if lon.None? then withLat else withLat[NadirLon := Some(Number(lon.value))]
  }

  /** The center branch: `value[0]` is split on `,` without being stripped
      first, and each piece is stripped and parsed. */
  function SetCenter(d: Extras, first: string, parseFloat: string -> Option<real>): Extras
  {
    var pieces := Strings.Split(first, ',');
    StoreCenter(d, ParseNumber(pieces[0], parseFloat), if |pieces| < 2 then None else ParseNumber(pieces[1], parseFloat))
  }

  /** The center stores: both coordinates when both parse, otherwise the
      handler's reset of both. */
  function StoreCenter(d: Extras, lat: Option<real>, lon: Option<real>): Extras
  {
    if lat.None? || lon.None? then ResetCenter(d)
    else d[CenterLat := Some(Number(lat.value))][CenterLon := Some(Number(lon.value))]
  }

  function ResetCenter(d: Extras): Extras
  {
    d[CenterLat := None][CenterLon := None]
  }

  /** What branch `b` does to `d` when the line has a value, `first` being
      `value[0]`. */
  function Assign(d: Extras, b: Branch, first: string, parseFloat: string -> Option<real>): Extras
  {
    match b
    case OnPhoto => d[Id := Some(Text(Strings.Strip(first)))]
    case OnNadir => SetNadir(d, first, parseFloat)
    case OnCenter => SetCenter(d, first, parseFloat)
    case OnAltitude => SetAltitude(d, first, parseFloat)
    case OnAzimuth => SetNumber(d, Azimuth, first, parseFloat)
    case OnSunElevation => SetNumber(d, SunElevationDeg, first, parseFloat)
    case OnFocalLength => SetNumber(d, FocalLengthUnitless, first, parseFloat)
    case OnCamera => d[Camera := Some(Text(Strings.Strip(first)))]
    case OnPhotoDate => d[AcquisitionDate := Some(Text(Strings.Strip(first)))]
    case OnPhotoTime => d[AcquisitionTime := Some(Text(Strings.Strip(first)))]
    case OnOther => d
  }

  /** The key of a line: the text before its first colon. */
  function KeyOf(line: string): string
  {
    Strings.Split(line, ':')[0]
  }

  /** The texts between the following colons. */
  function FieldsOf(line: string): seq<string>
  {
    Strings.Split(line, ':')[1..]
  }

  /** One pass of the loop: the effect of one line on the dictionary. A line
      with no colon has no `value[0]`; the IndexError its branch raises is
      caught and changes nothing, except in the center branch, whose
      handler resets both center fields. */
  function ApplyLine(d: Extras, line: string, parseFloat: string -> Option<real>): (r: Extras)
    ensures d.Keys <= r.Keys <= d.Keys + Touched(Classify(KeyOf(line)))
  {
    var b := Classify(KeyOf(line));
    if FieldsOf(line) == [] then (if b == OnCenter then ResetCenter(d) else d)
    else
      AssignKeys(d, b, FieldsOf(line)[0], parseFloat);
      Assign(d, b, FieldsOf(line)[0], parseFloat)
  }

  /** A branch adds no key but the fields it names, and removes none. */
  lemma AssignKeys(d: Extras, b: Branch, first: string, parseFloat: string -> Option<real>)
    ensures d.Keys <= Assign(d, b, first, parseFloat).Keys <= d.Keys + Touched(b)
  {
    match b
    case OnNadir =>
      var pieces := Strings.Split(Strings.Strip(first), ',');
      StoreNadirKeys(d, ParseNumber(pieces[0], parseFloat), if |pieces| < 2 then None else ParseNumber(pieces[1], parseFloat));
    case OnCenter =>
      var pieces := Strings.Split(first, ',');
      StoreCenterKeys(d, ParseNumber(pieces[0], parseFloat), if |pieces| < 2 then None else ParseNumber(pieces[1], parseFloat));
    case OnAltitude =>
    case OnAzimuth =>
    case OnSunElevation =>
    case OnFocalLength =>
    case OnPhoto =>
    case OnCamera =>
    case OnPhotoDate =>
    case OnPhotoTime =>
    case OnOther =>
  }

  lemma StoreNadirKeys(d: Extras, lat: Option<real>, lon: Option<real>)
    ensures d.Keys <= StoreNadir(d, lat, lon).Keys <= d.Keys + {NadirLat, NadirLon}
  {
  }

  lemma StoreCenterKeys(d: Extras, lat: Option<real>, lon: Option<real>)
    ensures d.Keys <= StoreCenter(d, lat, lon).Keys <= d.Keys + {CenterLat, CenterLon}
  {
  }


  /** The dictionary after the lines, in order. */
  function ApplyLines(d: Extras, lines: seq<string>, parseFloat: string -> Option<real>): (r: Extras)
    ensures d.Keys <= r.Keys <= d.Keys + AllFields
  {
    if lines == [] then d
    else ApplyLine(ApplyLines(d, lines[..|lines| - 1], parseFloat), lines[|lines| - 1], parseFloat)
  }

  /** A value of the right kind for its field. */
  predicate FieldTyped(f: Field, v: Option<Value>)
  {
    v.None? || (if IsTextField(f) then v.value.Text? else v.value.Number?)
  }

  /** The shape of every dictionary the parser returns: exactly the 13
      keys, `focalLength` never set, the two center fields set together,
      and every value of its field's kind. */
  predicate Shaped(d: Extras)
  {
    && d.Keys == AllFields
    && d[FocalLength] == None
    && (d[CenterLat].None? <==> d[CenterLon].None?)
    && forall f :: f in d ==> FieldTyped(f, d[f])
  }

  /** Storing a value of the right kind in a field other than
      `focalLength` and the center pair keeps the shape. */
  lemma UpdateShaped(d: Extras, f: Field, v: Option<Value>)
    requires Shaped(d) && FieldTyped(f, v)
    requires f != FocalLength && f != CenterLat && f != CenterLon
    ensures Shaped(d[f := v])
  {
  }

  lemma ResetCenterShaped(d: Extras)
    requires Shaped(d)
    ensures Shaped(ResetCenter(d))
  {
  }

  lemma StoreNadirShaped(d: Extras, lat: Option<real>, lon: Option<real>)
    requires Shaped(d)
    ensures Shaped(StoreNadir(d, lat, lon))
    ensures forall f :: f in d && f != NadirLat && f != NadirLon ==> StoreNadir(d, lat, lon)[f] == d[f]
  {
    if lat.Some? {
      UpdateShaped(d, NadirLat, Some(Number(lat.value)));
      if lon.Some? {
        UpdateShaped(d[NadirLat := Some(Number(lat.value))], NadirLon, Some(Number(lon.value)));
      }
    }
  }

  lemma StoreCenterShaped(d: Extras, lat: Option<real>, lon: Option<real>)
    requires Shaped(d)
    ensures Shaped(StoreCenter(d, lat, lon))
    ensures forall f :: f in d && f != CenterLat && f != CenterLon ==> StoreCenter(d, lat, lon)[f] == d[f]
  {
    ResetCenterShaped(d);
  }

  lemma NadirBranchShaped(d: Extras, first: string, parseFloat: string -> Option<real>)
    requires Shaped(d)
    ensures Shaped(SetNadir(d, first, parseFloat))
    ensures forall f :: f in d && f != NadirLat && f != NadirLon ==> SetNadir(d, first, parseFloat)[f] == d[f]
  {
    var pieces := Strings.Split(Strings.Strip(first), ',');
    StoreNadirShaped(d, ParseNumber(pieces[0], parseFloat), if |pieces| < 2 then None else ParseNumber(pieces[1], parseFloat));
  }

  lemma CenterBranchShaped(d: Extras, first: string, parseFloat: string -> Option<real>)
    requires Shaped(d)
    ensures Shaped(SetCenter(d, first, parseFloat))
    ensures forall f :: f in d && f != CenterLat && f != CenterLon ==> SetCenter(d, first, parseFloat)[f] == d[f]
  {
    var pieces := Strings.Split(first, ',');
    StoreCenterShaped(d, ParseNumber(pieces[0], parseFloat), if |pieces| < 2 then None else ParseNumber(pieces[1], parseFloat));
  }

  lemma NumberBranchShaped(d: Extras, field: Field, first: string, parseFloat: string -> Option<real>)
    requires Shaped(d) && !IsTextField(field)
    requires field != FocalLength && field != CenterLat && field != CenterLon
    ensures Shaped(SetNumber(d, field, first, parseFloat))
    ensures forall f :: f in d && f != field ==> SetNumber(d, field, first, parseFloat)[f] == d[f]
  {
    var x := ParseNumber(first, parseFloat);
    if x.Some? {
      UpdateShaped(d, field, Some(Number(x.value)));
    }
  }

  lemma AltitudeBranchShaped(d: Extras, first: string, parseFloat: string -> Option<real>)
    requires Shaped(d)
    ensures Shaped(SetAltitude(d, first, parseFloat))
    ensures forall f :: f in d && f != Altitude ==> SetAltitude(d, first, parseFloat)[f] == d[f]
  {
    var x := ParseNumber(first, parseFloat);
    if x.Some? {
      UpdateShaped(d, Altitude, Some(Number(x.value * MetersPerMile)));
    }
  }

  /** A branch changes only the fields it names, and keeps the shape. */
  lemma AssignFrame(d: Extras, b: Branch, first: string, parseFloat: string -> Option<real>)
    requires Shaped(d)
    ensures Shaped(Assign(d, b, first, parseFloat))
    ensures forall f :: f in d && f !in Touched(b) ==> Assign(d, b, first, parseFloat)[f] == d[f]
  {
    match b
    case OnPhoto => UpdateShaped(d, Id, Some(Text(Strings.Strip(first))));
    case OnNadir => NadirBranchShaped(d, first, parseFloat);
    case OnCenter => CenterBranchShaped(d, first, parseFloat);
    case OnAltitude => AltitudeBranchShaped(d, first, parseFloat);
    case OnAzimuth => NumberBranchShaped(d, Azimuth, first, parseFloat);
    case OnSunElevation => NumberBranchShaped(d, SunElevationDeg, first, parseFloat);
    case OnFocalLength => NumberBranchShaped(d, FocalLengthUnitless, first, parseFloat);
    case OnCamera => UpdateShaped(d, Camera, Some(Text(Strings.Strip(first))));
    case OnPhotoDate => UpdateShaped(d, AcquisitionDate, Some(Text(Strings.Strip(first))));
    case OnPhotoTime => UpdateShaped(d, AcquisitionTime, Some(Text(Strings.Strip(first))));
    case OnOther =>
  }

  /** A line changes only the fields of its branch, and keeps the shape. */
  lemma ApplyLineFrame(d: Extras, line: string, parseFloat: string -> Option<real>)
    requires Shaped(d)
    ensures Shaped(ApplyLine(d, line, parseFloat))
    ensures forall f :: f in d && f !in Touched(Classify(KeyOf(line))) ==> ApplyLine(d, line, parseFloat)[f] == d[f]
  {
    ApplyLineCases(d, line, parseFloat);
    var b := Classify(KeyOf(line));
    if FieldsOf(line) == [] {
      ResetCenterShaped(d);
    } else {
      AssignFrame(d, b, FieldsOf(line)[0], parseFloat);
    }
  }

  /** Every dictionary the parser builds has the shape of `Shaped`. */
  lemma {:induction false} ExtrasShaped(lines: seq<string>, parseFloat: string -> Option<real>)
    ensures Shaped(ApplyLines(InitialExtras(), lines, parseFloat))
  {
    if lines != [] {
      ExtrasShaped(lines[..|lines| - 1], parseFloat);
      ApplyLineFrame(ApplyLines(InitialExtras(), lines[..|lines| - 1], parseFloat), lines[|lines| - 1], parseFloat);
    }
  }

  /** `constructExtrasDict`, from the point where the text has been fetched
      and decoded: the lines are read in order, each by `ParseLine`. */
  method ConstructExtrasDict(text: string, parseFloat: string -> Option<real>) returns (extras: Extras)
    ensures extras == ApplyLines(InitialExtras(), Strings.Split(text, '\n'), parseFloat)
    ensures Shaped(extras)
  {
    var params := Strings.Split(text, '\n');
    extras := InitialExtras();
    for n := 0 to |params|
      invariant extras == ApplyLines(InitialExtras(), params[..n], parseFloat)
    {
      extras := ParseLine(extras, params[n], parseFloat);
      assert params[..n + 1][..n] == params[..n];
    }
    assert params[..|params|] == params;
    ExtrasShaped(params, parseFloat);
  }

  lemma ApplyLineCases(d: Extras, line: string, parseFloat: string -> Option<real>)
    ensures ApplyLine(d, line, parseFloat) ==
      if FieldsOf(line) == [] then (if Classify(KeyOf(line)) == OnCenter then ResetCenter(d) else d)
      else Assign(d, Classify(KeyOf(line)), FieldsOf(line)[0], parseFloat)
  {
  }

  /** The body of the loop of `constructExtrasDict` for one line: the line is
      split on every `:`, the key is the text before the first colon and
      only the text up to the second colon is used. */
  method ParseLine(extras: Extras, param: string, parseFloat: string -> Option<real>) returns (updated: Extras)
    ensures updated == ApplyLine(extras, param, parseFloat)
  {
    updated := extras;
    var splitLine := Strings.Split(param, ':');
    var key := splitLine[0];
    var value := splitLine[1..];
    ApplyLineCases(extras, param, parseFloat);
    ghost var b := Classify(key);
    ghost var expected := if value == [] then (if b == OnCenter then ResetCenter(extras) else extras)
      else Assign(extras, b, value[0], parseFloat);
    assert ApplyLine(extras, param, parseFloat) == expected;
    if key == "Photo" {
      assert b == OnPhoto;
      if |value| > 0 {
        updated := updated[Id := Some(Text(Strings.Strip(value[0])))];
      }
      assert updated == expected;
    } else if Strings.Contains(key, NadirKey) {
      assert b == OnNadir;
      updated := ParseNadir(updated, value, parseFloat);
      assert updated == expected;
    } else if Strings.Contains(key, CenterKey) {
      assert b == OnCenter;
      updated := ParseCenter(updated, value, parseFloat);
      assert updated == expected;
    } else if Strings.Contains(key, AltitudeKey) {
      assert b == OnAltitude;
      if |value| > 0 {
        var x := parseFloat(Strings.Strip(value[0]));
        if x.Some? {
          updated := updated[Altitude := Some(Number(x.value * MetersPerMile))];
        }
      }
      assert updated == expected;
    } else if Strings.Contains(key, AzimuthKey) {
      assert b == OnAzimuth;
      updated := ParseNumberField(updated, Azimuth, value, parseFloat);
      assert updated == expected;
    } else if Strings.Contains(key, SunElevationKey) {
      assert b == OnSunElevation;
      updated := ParseNumberField(updated, SunElevationDeg, value, parseFloat);
      assert updated == expected;
    } else if Strings.Contains(key, FocalLengthKey) {
      assert b == OnFocalLength;
      updated := ParseNumberField(updated, FocalLengthUnitless, value, parseFloat);
      assert updated == expected;
    } else if Strings.Contains(key, CameraKey) {
      assert b == OnCamera;
      if |value| > 0 {
        updated := updated[Camera := Some(Text(Strings.Strip(value[0])))];
      }
      assert updated == expected;
    } else if key == "Photo Date" {
      assert b == OnPhotoDate;
      if |value| > 0 {
        updated := updated[AcquisitionDate := Some(Text(Strings.Strip(value[0])))];
      }
      assert updated == expected;
    } else if key == "Photo Time" {
      assert b == OnPhotoTime;
      if |value| > 0 {
        updated := updated[AcquisitionTime := Some(Text(Strings.Strip(value[0])))];
      }
      assert updated == expected;
    } else {
      assert b == OnOther;
    }
  }

  /** The nadir branch: `value[0]` is stripped and split on `,`; the
      latitude is stored before the longitude is parsed. */
  method ParseNadir(extras: Extras, value: seq<string>, parseFloat: string -> Option<real>) returns (updated: Extras)
    ensures updated == if value == [] then extras else SetNadir(extras, value[0], parseFloat)
  {
    updated := extras;
    if |value| > 0 {
      var pieces := Strings.Split(Strings.Strip(value[0]), ',');
      var lat := ParseNumber(pieces[0], parseFloat);
      if lat.Some? {
        updated := updated[NadirLat := Some(Number(lat.value))];
        if |pieces| > 1 {
          var lon := ParseNumber(pieces[1], parseFloat);
          if lon.Some? {
            updated := updated[NadirLon := Some(Number(lon.value))];
          }
          NadirStores(extras, value[0], parseFloat, lat, lon);
        } else {
          NadirStores(extras, value[0], parseFloat, lat, None);
        }
      } else {
        NadirStores(extras, value[0], parseFloat, lat, None);
      }
    }
  }

  lemma NadirStores(d: Extras, first: string, parseFloat: string -> Option<real>, lat: Option<real>, lon: Option<real>)
    requires var pieces := Strings.Split(Strings.Strip(first), ',');
      && lat == ParseNumber(pieces[0], parseFloat)
      && (lat.Some? ==> lon == if |pieces| < 2 then None else ParseNumber(pieces[1], parseFloat))
    ensures SetNadir(d, first, parseFloat) == StoreNadir(d, lat, lon)
  {
  }

  /** The center branch: `value[0]` is split on `,` without stripping it
      first; any failure, a missing value included, resets both fields. */
  method ParseCenter(extras: Extras, value: seq<string>, parseFloat: string -> Option<real>) returns (updated: Extras)
    ensures updated == if value == [] then ResetCenter(extras) else SetCenter(extras, value[0], parseFloat)
  {
    updated := extras;
    var parsed := false;
    if |value| > 0 {
      var pieces := Strings.Split(value[0], ',');
      var lat := ParseNumber(pieces[0], parseFloat);
      if lat.Some? {
        updated := updated[CenterLat := Some(Number(lat.value))];
        ResetCenterAbsorbs(extras, Some(Number(lat.value)));
        if |pieces| > 1 {
          var lon := ParseNumber(pieces[1], parseFloat);
          if lon.Some? {
            updated := updated[CenterLon := Some(Number(lon.value))];
            parsed := true;
          } else {
            CenterLonFails(extras, value[0], parseFloat);
          }
        } else {
          CenterLonFails(extras, value[0], parseFloat);
        }
      } else {
        CenterLatFails(extras, value[0], parseFloat);
      }
    }
    if !parsed {
      updated := updated[CenterLat := None][CenterLon := None];
    }
  }

  lemma CenterLatFails(d: Extras, first: string, parseFloat: string -> Option<real>)
    requires ParseNumber(Strings.Split(first, ',')[0], parseFloat).None?
    ensures SetCenter(d, first, parseFloat) == ResetCenter(d)
  {
  }

  lemma CenterLonFails(d: Extras, first: string, parseFloat: string -> Option<real>)
    requires var pieces := Strings.Split(first, ',');
      |pieces| < 2 || ParseNumber(pieces[1], parseFloat).None?
    ensures SetCenter(d, first, parseFloat) == ResetCenter(d)
  {
  }

  lemma ResetCenterAbsorbs(d: Extras, v: Option<Value>)
    ensures ResetCenter(d[CenterLat := v]) == ResetCenter(d)
  {
  }

  /** A branch that stores `float(value[0].strip())` in `field`. */
  method ParseNumberField(extras: Extras, field: Field, value: seq<string>, parseFloat: string -> Option<real>)
    returns (updated: Extras)
    ensures updated == if value == [] then extras else SetNumber(extras, field, value[0], parseFloat)
  {
    updated := extras;
    if |value| > 0 {
      var x := parseFloat(Strings.Strip(value[0]));
      if x.Some? {
        updated := updated[field := Some(Number(x.value))];
      }
    }
  }

  // ---------------------------------------------------------------------
  // What the parser does with the lines it reads

  /** Reading `a` and then `b` is reading `a + b`: the dictionary is the
      only state carried from one line to the next. */
  lemma {:induction false} ApplyLinesAppend(d: Extras, a: seq<string>, b: seq<string>, parseFloat: string -> Option<real>)
    ensures ApplyLines(d, a + b, parseFloat) == ApplyLines(ApplyLines(d, a, parseFloat), b, parseFloat)
    decreases |b|
  {
    if b == [] {
      assert a + b == a;
    } else {
      ApplyLinesAppend(d, a, b[..|b| - 1], parseFloat);
      assert (a + b)[..|a + b| - 1] == a + b[..|b| - 1];
    }
  }

  /** A field that no line's branch names keeps its value through all the
      lines. */
  lemma {:induction false} UntouchedFieldKept(d: Extras, lines: seq<string>, parseFloat: string -> Option<real>, f: Field)
    requires Shaped(d)
    requires forall i :: 0 <= i < |lines| ==> f !in Touched(Classify(KeyOf(lines[i])))
    ensures Shaped(ApplyLines(d, lines, parseFloat))
    ensures ApplyLines(d, lines, parseFloat)[f] == d[f]
    decreases |lines|
  {
    if lines != [] {
      var init := lines[..|lines| - 1];
      assert forall i :: 0 <= i < |init| ==> init[i] == lines[i];
      UntouchedFieldKept(d, init, parseFloat, f);
      ApplyLineFrame(ApplyLines(d, init, parseFloat), lines[|lines| - 1], parseFloat);
    }
  }

  /** A line with no colon has no `value[0]`: it changes nothing, except
      that a center line resets both center fields. */
  lemma LineWithoutColon(d: Extras, line: string, parseFloat: string -> Option<real>)
    requires ':' !in line
    ensures ApplyLine(d, line, parseFloat) == if Classify(line) == OnCenter then ResetCenter(d) else d
  {
    Strings.SplitFree(line, ':');
  }

  /** The key and the value of a line `key:value` with no other colon. */
  lemma KeyValueLine(key: string, v: string)
    requires ':' !in key && ':' !in v
    ensures KeyOf(key + ":" + v) == key && FieldsOf(key + ":" + v) == [v]
  {
    assert key + ":" + v == key + [':'] + v;
    Strings.SplitAfterFree(key, ':', v);
    Strings.SplitFree(v, ':');
  }

  /** Only the text between the first and the second colon is used; the
      rest of the line is dropped. */
  lemma FirstFieldOnly(d: Extras, key: string, v: string, rest: string, parseFloat: string -> Option<real>)
    requires ':' !in key && ':' !in v
    ensures ApplyLine(d, key + ":" + v + ":" + rest, parseFloat) == ApplyLine(d, key + ":" + v, parseFloat)
  {
    var line := key + ":" + v + ":" + rest;
    assert line == key + [':'] + (v + [':'] + rest);
    Strings.SplitAfterFree(key, ':', v + [':'] + rest);
    Strings.SplitAfterFree(v, ':', rest);
    assert KeyOf(line) == key && FieldsOf(line)[0] == v;
    KeyValueLine(key, v);
  }

  /** The last `Photo:` line decides `id`, whatever the lines before it did. */
  lemma LastPhotoLineWins(d: Extras, lines: seq<string>, v: string, parseFloat: string -> Option<real>)
    requires ':' !in v
    ensures ApplyLines(d, lines + ["Photo:" + v], parseFloat)[Id] == Some(Text(Strings.Strip(v)))
  {
    var all := lines + ["Photo:" + v];
    assert all[..|all| - 1] == lines;
    KeyValueLine("Photo", v);
  }

  /** A `Photo Time` line keeps only the text before the second colon: of
      a time `hh:mm:ss` only the hours are stored. */
  lemma PhotoTimeKeepsHour(d: Extras, hours: string, rest: string, parseFloat: string -> Option<real>)
    requires ':' !in hours
    ensures var r := ApplyLine(d, "Photo Time" + ":" + hours + ":" + rest, parseFloat);
      AcquisitionTime in r && r[AcquisitionTime] == Some(Text(Strings.Strip(hours)))
  {
    PhotoTimeKey();
    KeyedLine(d, "Photo Time", OnPhotoTime, hours, rest, parseFloat);
  }

  /** `Photo Time` is a colon-free key of the `Photo Time` branch. */
  lemma PhotoTimeKey()
    ensures ':' !in "Photo Time" && Classify("Photo Time") == OnPhotoTime
  {
    ShortKey("Photo Time");
  }

  /** A line `key:v:rest` is handled by the branch of `key` on `v`. */
  lemma KeyedLine(d: Extras, key: string, b: Branch, v: string, rest: string, parseFloat: string -> Option<real>)
    requires ':' !in key && ':' !in v && Classify(key) == b
    ensures ApplyLine(d, key + ":" + v + ":" + rest, parseFloat) == Assign(d, b, v, parseFloat)
  {
    FirstFieldOnly(d, key, v, rest, parseFloat);
    BranchLine(d, key, b, v, parseFloat);
  }

  /** A line `key:v` is handled by the branch of `key` on `v`. */
  lemma BranchLine(d: Extras, key: string, b: Branch, v: string, parseFloat: string -> Option<real>)
    requires ':' !in key && ':' !in v && Classify(key) == b
    ensures ApplyLine(d, key + ":" + v, parseFloat) == Assign(d, b, v, parseFloat)
  {
    KeyValueLine(key, v);
  }

  /** The instance `Photo Time: 12:30:00`, which stores `12`. */
  lemma PhotoTimeExample(d: Extras, parseFloat: string -> Option<real>)
    ensures var r := ApplyLine(d, "Photo Time: 12:30:00", parseFloat);
      AcquisitionTime in r && r[AcquisitionTime] == Some(Text("12"))
  {
    PhotoTimeExampleParts();
    PhotoTimeKeepsHour(d, " 12", "30:00", parseFloat);
  }

  /** The example line cut at its colons, and its stripped hour. */
  lemma PhotoTimeExampleParts()
    ensures "Photo Time: 12:30:00" == "Photo Time" + ":" + " 12" + ":" + "30:00"
    ensures ':' !in " 12" && Strings.Strip(" 12") == "12"
  {
    assert " 12"[1..] == "12";
    assert Strings.StripLeft(" 12") == "12";
    assert Strings.StripRight("12") == "12";
  }

  /** The three `Photo` keys match exactly, the others as substrings: a
      trailing blank makes `Photo Date ` an unknown key, while any key
      holding `Camera` is the camera line. */
  lemma PhotoKeysExact()
    ensures Classify("Photo") == OnPhoto
    ensures Classify("Photo Date") == OnPhotoDate
    ensures Classify("Photo Time") == OnPhotoTime
    ensures Classify("Photo Date ") == OnOther
    ensures Classify("Camera model") == OnCamera
  {
    ShortKey("Photo Date");
    ShortKey("Photo Time");
    ShortKey("Photo Date ");
    CameraKeyed("Camera model");
  }

  /** The azimuth key is matched as a substring: with a trailing blank it
      is still the azimuth line, unlike `Photo Date `. */
  lemma SunAzimuthKeyed()
    ensures Classify("Sun azimuth ") == OnAzimuth
  {
    NoLongKey("Sun azimuth ");
    assert AzimuthKey <= "Sun azimuth ";
  }

  /** How a short key without `C` or `S` is classified: only the exact
      `Photo` keys are recognised. */
  lemma ShortKey(key: string)
    requires |key| <= 12 && 'C' !in key && 'S' !in key
    ensures Classify(key) ==
      if key == "Photo" then OnPhoto
      else if key == "Photo Date" then OnPhotoDate
      else if key == "Photo Time" then OnPhotoTime
      else OnOther
  {
    NoLongKey(key);
    Strings.ContainsFirstChar(key, AzimuthKey);
    Strings.ContainsFirstChar(key, CameraKey);
  }

  /** A short key that starts with `Camera` is the camera line. */
  lemma CameraKeyed(key: string)
    requires |key| <= 12 && 'S' !in key && CameraKey <= key
    ensures Classify(key) == OnCamera
  {
    NoLongKey(key);
    Strings.ContainsFirstChar(key, AzimuthKey);
    assert key != "Photo" by {
      assert key[0] == 'C';
    }
  }

  /** A key of at most 12 characters holds none of the five long keys. */
  lemma NoLongKey(key: string)
    requires |key| <= 12
    ensures !Strings.Contains(key, NadirKey) && !Strings.Contains(key, CenterKey)
    ensures !Strings.Contains(key, AltitudeKey) && !Strings.Contains(key, SunElevationKey)
    ensures !Strings.Contains(key, FocalLengthKey)
  {
    Strings.ContainsShorter(key, NadirKey);
    Strings.ContainsShorter(key, CenterKey);
    Strings.ContainsShorter(key, AltitudeKey);
    Strings.ContainsShorter(key, SunElevationKey);
    Strings.ContainsShorter(key, FocalLengthKey);
  }

  /** A line whose key holds the altitude text, and neither of the two
      coordinate texts tested before it, stores the number of miles times
      1609.34; a number that does not parse leaves the field alone. */
  lemma AltitudeLineInMeters(d: Extras, key: string, v: string, parseFloat: string -> Option<real>)
    requires ':' !in key && ':' !in v
    requires Strings.Contains(key, AltitudeKey)
    requires !Strings.Contains(key, NadirKey) && !Strings.Contains(key, CenterKey)
    ensures var miles := ParseNumber(v, parseFloat);
      ApplyLine(d, key + ":" + v, parseFloat) ==
        if miles.Some? then d[Altitude := Some(Number(miles.value * MetersPerMile))] else d
  {
    AltitudeKeyed(key);
    BranchLine(d, key, OnAltitude, v, parseFloat);
  }

  /** A key holding the altitude text, and neither coordinate text, is the
      altitude line. */
  lemma AltitudeKeyed(key: string)
    requires Strings.Contains(key, AltitudeKey)
    requires !Strings.Contains(key, NadirKey) && !Strings.Contains(key, CenterKey)
    ensures Classify(key) == OnAltitude
  {
    Strings.ContainsShorter("Photo", AltitudeKey);
  }

  /** The nadir update is not atomic: a latitude that parses is stored even
      when the longitude is missing or does not parse, and the old longitude
      then stays beside it. */
  lemma NadirLatitudeAlone(d: Extras, first: string, parseFloat: string -> Option<real>)
    requires var pieces := Strings.Split(Strings.Strip(first), ',');
      && ParseNumber(pieces[0], parseFloat).Some?
      && (|pieces| < 2 || ParseNumber(pieces[1], parseFloat).None?)
    requires NadirLon in d
    ensures var lat := ParseNumber(Strings.Split(Strings.Strip(first), ',')[0], parseFloat);
      && SetNadir(d, first, parseFloat)[NadirLat] == Some(Number(lat.value))
      && SetNadir(d, first, parseFloat)[NadirLon] == d[NadirLon]
  {
    var pieces := Strings.Split(Strings.Strip(first), ',');
    NadirStores(d, first, parseFloat, ParseNumber(pieces[0], parseFloat), None);
  }

  /** The center update is all or nothing: both coordinates when both
      parse, otherwise both `None`, whatever they held before. */
  lemma CenterAllOrNothing(d: Extras, first: string, parseFloat: string -> Option<real>)
    ensures var pieces := Strings.Split(first, ',');
      var lat := ParseNumber(pieces[0], parseFloat);
      var lon := if |pieces| < 2 then None else ParseNumber(pieces[1], parseFloat);
      var r := SetCenter(d, first, parseFloat);
      && (lat.Some? && lon.Some? ==> r[CenterLat] == Some(Number(lat.value)) && r[CenterLon] == Some(Number(lon.value)))
      && (lat.None? || lon.None? ==> r[CenterLat] == None && r[CenterLon] == None)
  {
    var pieces := Strings.Split(first, ',');
    if ParseNumber(pieces[0], parseFloat).None? {
      CenterLatFails(d, first, parseFloat);
    } else if |pieces| < 2 || ParseNumber(pieces[1], parseFloat).None? {
      CenterLonFails(d, first, parseFloat);
    }
  }
}
