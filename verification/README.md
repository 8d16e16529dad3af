# geocamUtil core, modelled in Dafny

This project models four modules of the GeoCam utility library (georef_geocamutilweb) and proves properties of them.

- **`geocamUtil/zmq/subscriber.py`** (`subscriber.dfy`, module `Subscriber`). `ZmqSubscriber` keeps a registry of handlers, one per topic prefix, and routes incoming ZMQ messages to them. It is modelled as a class with the fields the Python object updates:
  - `handlers`, a map from topic to (handler id → handler);
  - `counter`;
  - whether `start()` has created the stream.

  The ZMQ socket is represented only by a ghost log of the SUBSCRIBE and UNSUBSCRIBE options set on it. The class invariant says three things:
  - handler ids are unique and below the counter;
  - the socket is subscribed to a subset of the topics that have handlers;
  - it is subscribed to exactly those topics as long as `start()` ran at most once.
- **`geocamUtil/imageInfo.py`** (`image_info.dfy`, module `ImageInfo`). It covers:
  - the focal-length conversion;
  - the overlay content-type check;
  - `dotdict` attribute access;
  - the image name and id that `getImageFile` takes from a URL;
  - the line parser of `constructExtrasDict`, which turns the JSC "image information" text into the 13-key extras dictionary.

  The parser loop is a method. Its specification function `ApplyLines` carries the properties: the dictionary's shape, which fields each line can touch, and the notable behaviours of individual branches.
- **`geocamUtil/sphere.py`** (`sphere.dfy`, module `SphereGeom`). `Sphere.intersect` is modelled over exact reals. With a sound square root, the proofs show three things:
  - the call raises ZeroDivisionError exactly when the discriminant is positive and the ray's origin lies on the sphere;
  - a returned distance is the nearest hit of the ray, from the origin on;
  - +infinity with a non-zero discriminant means the ray misses the sphere ahead of its origin.

  A tangent ray (zero discriminant) also gets +infinity, although it touches the sphere (`SphereGeom.TangentRayMisses`).
- **`geocamUtil/loader.py`** (`loader.dfy`, module `Loader`). These are the string splits that turn a qualified name into a module name and a class name.

`strings.dfy` (module `Strings`) defines the Python string operations that the code uses: `find`, `rindex` (as `RFind`, with -1 standing for its ValueError), `split`, `split` with a limit, `rsplit(…, 1)`, `strip` and `in`. `startswith` is Dafny's prefix test `<=` on sequences. `Join` is `join`, which the code does not call; it is there to state the round trips of the splits. `Count` counts a character; it only serves to state what `getFormByName` accepts. `wrappers.dfy` holds `Option`, `Result`, `Outcome` and `Fault`. `Fault` names the Python exception that an error path raises.

Python exceptions are explicit error results throughout:
- `KeyError` from `unsubscribe`;
- `AttributeError` from routing to no registry, from subscribing before `start()` and from a missing content type;
- `ValueError` from a bad JSON body or a failed tuple unpacking;
- `ZeroDivisionError` from `intersect` and from the focal-length formula.

Calls into code outside the model become parameters:
- `json.loads` is `decode: string -> Option<J>`;
- `float()` is `parseFloat: string -> Option<real>`;
- `math.sqrt` is `sqrt: real -> real`;
- the `settings.PDF_*` values of `validOverlayContentType` are two parameters.

Where an error result stands for an exception, `None` stands for the exception that call raises. Handlers are uninterpreted values, and calling one is recorded as a `Call` value in a returned sequence.

Where the code and its comments disagree, the model follows the code:
- `intersect` returns `float("inf")` on a miss. Its comment, and the second check of the module's self-test, expect `None`. `SphereGeom.SelfTest` proves the code's answer (`Inf`).
- The altitude key reads "Spacecraft altitude in nautical miles", but the code multiplies by 1609.34, the statute mile in meters. `MetersPerMile` keeps the code's factor.
- The `if "Photo" == key` chain tests `in key` for the long keys and `==` for the `Photo` keys. `Classify` keeps that order, so for example a `Photo Date ` key with a trailing blank is ignored, while `Sun azimuth ` still selects the azimuth branch (`ImageInfo.PhotoKeysExact`, `ImageInfo.SunAzimuthKeyed`).

## Model

| member | source | states |
|---|---|---|
| Subscriber.ZmqSubscriber.constructor | geocamUtil/zmq/subscriber.py:32-33 | A new subscriber has no handlers and the counter at 0; the invariant holds. |
| Subscriber.ZmqSubscriber.Start | geocamUtil/zmq/subscriber.py:55-60 | `start` creates a new socket with no subscriptions; handlers and counter are unchanged and the invariant is kept. |
| Subscriber.ZmqSubscriber.Subscribe | geocamUtil/zmq/subscriber.py:82-89 | Registers the handler under the topic with id = old counter and increments the counter. It subscribes the socket exactly when the topic's registry was missing or empty. The returned id is in no registry. Before `start()` it raises AttributeError, after `setdefault` has already put an empty registry in place. Ids stay unique and the socket stays in step with the registries. |
| Subscriber.ZmqSubscriber.Unsubscribe | geocamUtil/zmq/subscriber.py:91-95 | Succeeds iff the topic and the id are registered, and then removes exactly that id. It unsubscribes the socket exactly when the registry becomes empty, and the topic stays mapped to the empty registry. Otherwise it raises KeyError and changes nothing. |
| Subscriber.ZmqSubscriber.RouteOne | geocamUtil/zmq/subscriber.py:63-80 | The body of the `routeMessage` loop. A body that is not JSON raises ValueError. A topic with no exact key and no prefix key raises AttributeError. Otherwise every handler of the chosen registry is called exactly once with the topic and the decoded object (handlers are taken not to raise). The chosen registry is the exact key's if present, else some prefix key's. |
| Subscriber.ZmqSubscriber.CallAll | geocamUtil/zmq/subscriber.py:79-80 | Calls every handler of the registry exactly once, each with the id it is registered under. |
| Subscriber.ZmqSubscriber.RouteMessage | geocamUtil/zmq/subscriber.py:62-80 | Messages are routed in order, and the calls are the concatenation of the per-message calls. It passes iff every message routes. Otherwise the first message that raises ends the routing with that message's error, after the earlier messages' handlers have run. |
| Subscriber.SplitTopic | geocamUtil/zmq/subscriber.py:64-66 | Topic + body is the message. With a colon, the topic ends at the first colon and keeps it; without one, the topic is empty. |
| Subscriber.SplitTopicOf | geocamUtil/zmq/subscriber.py:64-66 | `name:body` with a colon-free name splits into `name:` and `body`, whatever the body holds. |
| Subscriber.ExactTopicShadowsPrefixes | geocamUtil/zmq/subscriber.py:69-80 | When the topic is a key, exactly the handlers of that key are called, with their registered handler values. |
| Subscriber.EmptyExactTopicCallsNobody | geocamUtil/zmq/subscriber.py:70-80 | An exact key with an empty registry shadows all prefix keys: nobody is called. |
| Subscriber.CallCountIsRegistrySize | geocamUtil/zmq/subscriber.py:79-80 | The number of calls equals the number of handlers in the registry. |
| Subscriber.SoleHandlerRouting | geocamUtil/zmq/subscriber.py:69-80 | When one key is the only eligible one and holds one handler, routing does not raise and makes exactly that one call. |
| Subscriber.GetOptionValues | geocamUtil/zmq/subscriber.py:47-53 | The result holds exactly the default option keys whose value is set and not None, with those values. |
| Subscriber.ActiveAfterUpdate | geocamUtil/zmq/subscriber.py:82-95 | Replacing one registry changes only whether that topic has handlers. |
| Subscriber.AddHandlerKeepsIds | geocamUtil/zmq/subscriber.py:86-88 | Registering with id = counter and incrementing the counter keeps ids below the counter and unique across topics. |
| Subscriber.SubscribeNewTopic | geocamUtil/zmq/subscriber.py:83-85 | Filling an empty registry and setting SUBSCRIBE keeps the socket in step with the registries. |
| Subscriber.TwoTopicsScenario | geocamUtil/zmq/subscriber.py:82-89 | After `start`, subscribing to two topics returns ids 0 and 1 and subscribes the socket to each topic once. |
| Subscriber.EmptiedSubscriber | geocamUtil/zmq/subscriber.py:82-95 | A catch-all handler, followed by a subscribe and an unsubscribe on "gps:", leaves "gps:" mapped to an empty registry. |
| Subscriber.EmptiedExactTopicScenario | geocamUtil/zmq/subscriber.py:62-80 | In that state a "gps:" message routes without error and calls nobody: the emptied exact key still shadows the catch-all prefix. |
| Subscriber.CatchAllScenario | geocamUtil/zmq/subscriber.py:62-80 | In that state an "imu:" message reaches only the catch-all handler, once. |
| ImageInfo.AccurateFocalLengths | geocamUtil/imageInfo.py:32-50 | Raises ZeroDivisionError iff a sensor dimension is 0. Otherwise each component times the sensor dimension in millimeters equals the image pixels times the focal length. |
| ImageInfo.FocalAxesIndependent | geocamUtil/imageInfo.py:41-49 | The x component depends only on the widths and the y component only on the heights. |
| ImageInfo.FocalScalesWithWidth | geocamUtil/imageInfo.py:41-49 | Scaling the image width by k scales the x focal length by k. |
| ImageInfo.ValidOverlayContentType | geocamUtil/imageInfo.py:53-59 | Accepts iff the type is present and is either a PDF type with PDF import enabled or starts with `image/`. A missing type raises AttributeError. |
| ImageInfo.PdfImportOnlyAddsPdfTypes | geocamUtil/imageInfo.py:53-59 | Enabling PDF import adds exactly the PDF types to what is accepted. |
| ImageInfo.GetAttr | geocamUtil/imageInfo.py:64-65 | `dotdict.__getattr__` gives a value iff the key is present with a non-None value, and then that value. |
| ImageInfo.SetAttr | geocamUtil/imageInfo.py:66 | `dotdict.__setattr__` stores a value that `__getattr__` reads back; the key is added if missing and every other key keeps its value. |
| ImageInfo.DelAttr | geocamUtil/imageInfo.py:67 | `dotdict.__delattr__` raises KeyError iff the key is missing; otherwise exactly that key is removed, reads as None afterwards, and the other keys keep their values. |
| ImageInfo.ImageName | geocamUtil/imageInfo.py:79 | The image name is the suffix of the URL after its last `/` and holds no `/`. |
| ImageInfo.ImageId | geocamUtil/imageInfo.py:75-80 | There is an id iff the URL contains one of the two EOL host names. The id is the image name up to its first `.`: a dot-free prefix followed by `.` or the end. |
| ImageInfo.ImageIdOfDirectory | geocamUtil/imageInfo.py:78-80 | An EOL URL ending in `/` gives an empty id, not `None`. |
| ImageInfo.InitialExtras | geocamUtil/imageInfo.py:132-144 | The initial dictionary has exactly the 13 keys, all None. |
| ImageInfo.NamesDistinct | geocamUtil/imageInfo.py:132-144 | Two fields have the same Python key iff they are the same field, so the 13 fields are the 13 distinct keys of the dictionary literal. |
| ImageInfo.ConstructExtrasDict | geocamUtil/imageInfo.py:131-208 | The loop applies the lines of the text in order. The result is the specification `ApplyLines` over the lines split on `\n`, and it has the shape of `Shaped`. |
| ImageInfo.ParseLine | geocamUtil/imageInfo.py:146-207 | One iteration of the loop equals the specification `ApplyLine`: the key is the text before the first colon, and the first test of the `if`/`elif` chain that holds selects the branch. |
| ImageInfo.Classify | geocamUtil/imageInfo.py:152-207 | The branch of the `if`/`elif` chain that a key selects: its test holds, and no test earlier in the chain holds. Falling through every test selects no field. |
| ImageInfo.ApplyLine | geocamUtil/imageInfo.py:146-207 | One line of the text never removes a key, and adds none outside the fields of the branch its key selects. |
| ImageInfo.ApplyLines | geocamUtil/imageInfo.py:145-207 | The lines, read in order, never remove a key, and add none outside the 13 keys of the dictionary. |
| ImageInfo.ParseNadir | geocamUtil/imageInfo.py:157-163 | The nadir branch: strip, split on `,`, store the latitude, then the longitude. |
| ImageInfo.ParseCenter | geocamUtil/imageInfo.py:164-171 | The center branch: split without stripping. Any failure, a missing value included, resets both center fields. |
| ImageInfo.ParseNumberField | geocamUtil/imageInfo.py:178-192 | A number branch stores `float(value[0].strip())`; a missing value or a failing `float` changes nothing. |
| ImageInfo.ApplyLineFrame | geocamUtil/imageInfo.py:152-207 | A line changes only the fields of its branch and keeps the shape. |
| ImageInfo.AssignFrame | geocamUtil/imageInfo.py:152-207 | Each branch changes only the fields it names and keeps the shape. |
| ImageInfo.ExtrasShaped | geocamUtil/imageInfo.py:131-208 | Every dictionary the parser returns has exactly the 13 keys and never sets `focalLength`. Its center fields are both set or both None, and every value has its field's kind. |
| ImageInfo.ApplyLinesAppend | geocamUtil/imageInfo.py:145-207 | Reading `a` then `b` is reading `a + b`: only the dictionary carries over from line to line. |
| ImageInfo.UntouchedFieldKept | geocamUtil/imageInfo.py:145-207 | A field that no line's branch names keeps its value through all the lines. |
| ImageInfo.LineWithoutColon | geocamUtil/imageInfo.py:146-171 | A line without a colon changes nothing, except that a center line resets both center fields (the IndexError handler). |
| ImageInfo.FirstFieldOnly | geocamUtil/imageInfo.py:146-149 | Only the text between the first and the second colon is used. |
| ImageInfo.LastPhotoLineWins | geocamUtil/imageInfo.py:152-156 | After any lines, a final `Photo:v` line leaves `id` = `v` stripped. |
| ImageInfo.PhotoTimeKeepsHour | geocamUtil/imageInfo.py:203-207 | A `Photo Time:hh:mm:ss` line stores only the stripped hours. |
| ImageInfo.PhotoTimeExample | geocamUtil/imageInfo.py:203-207 | `Photo Time: 12:30:00` stores `12`. |
| ImageInfo.PhotoKeysExact | geocamUtil/imageInfo.py:152-207 | `Photo`, `Photo Date` and `Photo Time` are matched exactly and `Photo Date ` is ignored, while `Camera model` is a camera line. |
| ImageInfo.SunAzimuthKeyed | geocamUtil/imageInfo.py:152-178 | `Sun azimuth ` with a trailing blank still selects the azimuth branch, because that key is tested with `in`. |
| ImageInfo.ShortKey | geocamUtil/imageInfo.py:152-207 | A short key without `C` or `S` can only select one of the three exact `Photo` branches, or none. |
| ImageInfo.AltitudeLineInMeters | geocamUtil/imageInfo.py:173-177 | An altitude line stores miles × 1609.34, or changes nothing when the number does not parse. This holds whenever neither coordinate key precedes it in the chain. |
| ImageInfo.NadirLatitudeAlone | geocamUtil/imageInfo.py:157-163 | The nadir update is not atomic: a parsed latitude is stored even when the longitude fails, and the old longitude stays. |
| ImageInfo.CenterAllOrNothing | geocamUtil/imageInfo.py:164-171 | The center update sets both coordinates when both parse, and otherwise sets both to None. |
| SphereGeom.Intersect | geocamUtil/sphere.py:31-52 | A non-positive discriminant gives +infinity and a returned distance is never negative. An error (ZeroDivisionError) needs a positive discriminant. |
| SphereGeom.IntersectIsNearestHit | geocamUtil/sphere.py:31-52 | With a sound square root, the call raises iff the discriminant is positive and the origin is on the sphere. A returned distance is the first parameter ≥ 0 at which the ray meets the sphere. A returned +infinity with a non-zero discriminant means the ray never meets the sphere ahead of its origin. |
| SphereGeom.RootsAreHits | geocamUtil/sphere.py:39-48 | The candidates `q/a` and `c/q` are exactly the parameters at which the ray meets the sphere, and neither divides by zero. |
| SphereGeom.NegativeDiscNoHit | geocamUtil/sphere.py:43-44 | A negative discriminant means the ray's line misses the sphere. |
| SphereGeom.PositiveDiscHasDirection | geocamUtil/sphere.py:39-47 | A positive discriminant implies `a > 0`, so `q / a` cannot divide by zero. |
| SphereGeom.ZeroDirectionMisses | geocamUtil/sphere.py:39-52 | A zero direction vector gives +infinity, not an error. |
| SphereGeom.SelfTest | geocamUtil/sphere.py:59-64 | The downward ray hits the unit sphere at distance 4, and the upward ray returns +infinity. |
| SphereGeom.TangentRayMisses | geocamUtil/sphere.py:43-52 | A ray that touches the unit sphere has a zero discriminant and gets +infinity, although its point of contact lies ahead of the origin. |
| Loader.GetModClass | geocamUtil/loader.py:17-23 | With a dot, the name is module + `.` + class and the class holds no dot; without one, the result is (name, ""). |
| Loader.ClassByNameParts | geocamUtil/loader.py:37 | `rsplit('.', 1)` unpacks into two names iff the name has a dot, and otherwise raises ValueError. The two parts rejoin to the name and the class part holds no dot. |
| Loader.ClassByNameAgreesWithGetModClass | geocamUtil/loader.py:17-23 | `getClassByName`'s split and `getModClass` agree on names with a dot, and only `getClassByName` fails on names without one. |
| Loader.FormByNameParts | geocamUtil/loader.py:47-48 | The only error of the three-way unpacking is ValueError. |
| Loader.FormByNameSplitsAtSecondDot | geocamUtil/loader.py:47-48 | `getFormByName` succeeds iff the name has at least two dots. The forms module then holds exactly one dot and, with the class name, rejoins to the whole name. |
| Strings.Split | geocamUtil/imageInfo.py:146 | `str.split` gives at least one piece, and no piece holds the separator. |
| Strings.JoinSplit | geocamUtil/imageInfo.py:131 | Joining the pieces of a split with the separator gives back the string. |
| Strings.SplitJoin | geocamUtil/imageInfo.py:131 | Splitting a join of separator-free pieces gives back the pieces. |
| Strings.SplitMax | geocamUtil/loader.py:47 | `split(sep, n)` gives between 1 and n + 1 pieces that rejoin to the string. No piece but the last holds the separator, and the last holds none either when fewer than n splits were made. |
| Strings.RSplitOnce | geocamUtil/loader.py:37 | `rsplit(sep, 1)` gives two pieces iff the separator occurs. The pieces rejoin to the string, and the last holds no separator. |
| Strings.ContainsAt | geocamUtil/imageInfo.py:157 | Python's substring test `in` holds iff the needle occurs at some index. |
| Strings.Strip | geocamUtil/imageInfo.py:154 | `strip` never lengthens the string, and a non-empty result neither starts nor ends with whitespace. |
| Strings.StripTrims | geocamUtil/imageInfo.py:154 | `strip` removes only whitespace from each end, and the result neither starts nor ends with whitespace. |
| Strings.Find | geocamUtil/zmq/subscriber.py:64 | `find` gives -1 iff the character is absent, else the index of its first occurrence. |
| Strings.RFind | geocamUtil/loader.py:20 | `rindex` gives the index of the last occurrence (-1 standing for the ValueError). |

## Left out

- Network and file I/O are not modelled: `urllib2.urlopen` and reading the response in `getImageFile` and `constructExtrasDict`, the HTTP status and size checks, and `StringIO`. `ConstructExtrasDict` starts from the decoded text, and only the URL-derived `name` and `id` of `getImageFile` are modelled.
- `getImageWidthHeight` is left out: it only opens the downloaded bytes with PIL.
- Logging and `print` are left out; they have no effect on the returned values.
- ZMQ plumbing is left out: the context, endpoint parsing, identity and connect in `__init__` and `start`, `on_recv` registration, and `addOptions` (an optparse side effect). Only the SUBSCRIBE and UNSUBSCRIBE options and the creation of a socket are recorded.
- Dictionary iteration order is not modelled. When several prefix keys match a topic, routing picks one of them, and the calls of one registry happen in some order. Python 2's `dict` order is an implementation detail, so the contracts say "some matching prefix" and "each handler exactly once".
- Handlers that subscribe or unsubscribe while messages are being routed are not modelled. Handlers are values that are called, not code that runs against the subscriber.
- Subscriber.ZmqSubscriber.CallAll assumes that handlers do not raise. In the code, a handler that raises ends this loop over the registry, so the handlers after it are not called; "every handler exactly once" holds only for handlers that return.
- Subscriber.ZmqSubscriber.RouteOne assumes that handlers do not raise. In the code, a handler that raises ends the loop over its registry, so "every handler of the chosen registry is called exactly once" holds only for handlers that return.
- Subscriber.ZmqSubscriber.RouteMessage assumes that handlers do not raise. In the code, the exception of a raising handler escapes `routeMessage` and the remaining messages are dropped; the model's faults are only the ValueError and AttributeError of routing.
- Subscriber.ZmqSubscriber.Valid only promises that the socket is subscribed to exactly the topics with handlers while `start()` has run at most once. A second `start()` replaces the socket and drops its subscriptions, and the code does not restore them.
- Floating point is not modelled: numbers are exact reals. `float()` and `math.sqrt` are parameters, and Python 2's `/` on integer image sizes is taken as real division.
- Sphere.normal and `__repr__` are left out: they have no branches, and `unit` belongs to a geometry module that is not part of this model.
- `getModelByName`, and the `__import__`/`getattr` steps of `getClassByName` and `getFormByName`, are left out: they are dynamic imports through Django and `sys.modules`. Only the name splits that decide what is imported are modelled.
- The extras dictionary is keyed by the enumeration `Field`, with `Name` giving each field's Python key (`NamesDistinct` shows that no two fields share one). This fixes the key set, and `ExtrasShaped` proves that the parser never leaves it. `SetAttr` and `DelAttr` work on string-keyed maps, as `dotdict` does.
- SphereGeom.Intersect does not require the unit-length direction that the code's comment assumes; the model also covers any direction.
- geocamUtil/registration.py, plane.py, timer.py, management/commands/prep.py and ErrorJSONResponse.py are not part of this model.
