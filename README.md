# AllTube controller base: format and password resolution

A Dafny model of the shared base of AllTube's HTTP controllers
(`classes/Controller/BaseController.php`). Every controller is built with a
default youtube-dl format and a session segment; per request it resolves the
format to download and the password of a protected video.

- **Construction.** `defaultFormat` starts as `best/bestvideo`. When the
  configuration's `stream` flag is off, it is passed once through
  `Config::addHttpToFormat` to force an HTTP transport. That helper's body is
  not part of this model, so the constructor takes it as a function parameter.
- **Format.** `getFormat` returns the `format` query parameter when it is set,
  the empty string included (`isset("")` holds), and the default format
  otherwise. It is modelled as a function, so it provably changes no state.
- **Password.** `getPassword` gives precedence to a submitted `password`
  parameter. A submitted value, the empty string included, is written as a
  flash value into the session segment under the request's `url` query value
  and returned. Otherwise the flash value readable under that key is returned
  and nothing is written.
- **Segment scoping.** The segment is requested under `self::class`, the base
  class's own name, whatever the concrete controller's class. Flash storage
  lives in the session, keyed by segment name, so every controller of a
  session reaches the same storage; subclasses are not isolated.
- **Where the password comes from.** The code reads it with Slim's
  `getParam`. That method takes the body value first and falls back to the
  query string (`Http.Param`).

Layout: `optional.dfy` holds `Option`, which stands for PHP `null`, and map
lookup. `http.dfy` holds the request, reduced to its query and body
parameters. `session.dfy` holds the session, which stores flash values per segment name,
and the segment handle, which is a session plus a name. `base_controller.dfy` holds
the controller class, the specification function `ResolvePassword`, and
lemmas about successive `getPassword` calls on one segment (`Replay`).

The session's flash store has two parts, each keyed by segment name:
- `readable` is what `getFlash` reads during the request. It is an abstract
  read: how values got there is not modelled.
- `written` is what `setFlash` has written during the request.

## Model

| member | source | states |
|---|---|---|
| `Controller.BaseController.constructor` | classes/Controller/BaseController.php:84-98 | the segment is obtained from the given session under the base class's name (`self::class`), never under the concrete controller's class; with `stream` on, `defaultFormat` is the initial `best/bestvideo` (line 37); with `stream` off, it is `addHttpToFormat("best/bestvideo")`, applied exactly once |
| `Controller.BaseController.GetFormat` | classes/Controller/BaseController.php:108-116 | a set `format` query value, even the empty string, is returned unchanged; an absent one yields the current `defaultFormat`; no state changes (a function) |
| `Controller.ResolvePassword` | classes/Controller/BaseController.php:125-137 | a submitted password, even `""`, is returned and becomes the flash value under the request's url; without one, the flash value readable under the url (or null) is returned and the writes are unchanged; every key other than the url keeps its entry; no key beyond the url is added |
| `Controller.BaseController.GetPassword` | classes/Controller/BaseController.php:125-137 | returns what `ResolvePassword` gives and leaves the segment's writes as `ResolvePassword` gives them; readable values, every other segment and `defaultFormat` are unchanged |
| `Http.QueryParam` | classes/Controller/BaseController.php:110 | `getQueryParam`: present exactly when the query string carries the name, and then its value |
| `Http.Param` | classes/Controller/BaseController.php:129 | `getParam`: the body value wins when present; otherwise the query value; null exactly when neither carries the name |
| `Session.Segment.GetFlash` | classes/Controller/BaseController.php:133 | `getFlash`: present exactly when the segment's readable values hold the key, and then that value; null otherwise |
| `Session.Segment.SetFlash` | classes/Controller/BaseController.php:131 | a flash write sets the value under its key in this segment; no other key, no other segment and nothing readable changes |
| `Session.Session.GetSegment` | classes/Controller/BaseController.php:89 | `getSegment(name)`: a new handle on the session's storage under `name`; handles with equal names reach the same storage |
| `Controller.ReplayUntouched` | classes/Controller/BaseController.php:127-134 | for successive `getPassword` calls within one request, the flash entry under a key that no call submits a password for stays as it was (isolation by url) |
| `Controller.ReplayLastSubmissionWins` | classes/Controller/BaseController.php:127-131 | for successive calls within one request, the last password submitted under a url is the flash value under that url at the end |
| `Controller.ReplayKeys` | classes/Controller/BaseController.php:127-134 | after successive calls within one request, the flash entries are exactly the earlier ones plus the urls of the calls that submitted a password |
| `Controller.SharedSegmentFlash` | classes/Controller/BaseController.php:89 | two controllers of any two classes built in one session share flash storage: a password flashed through the first is the second's segment entry under the url; a call without a password leaves the second's segment unchanged |

## Left out

- Container lookups of `config`, `locale` and `logger`, the downloader and its logger wiring (lines 86-93): service-locator plumbing over classes that are not part of this model. The configuration is reduced to its `stream` flag.
- `SessionManager::getSession`: the constructor receives the session. When flash values become readable and when they expire belongs to the session library; the model does not claim that a flash value is read only once, and the `Replay` lemmas speak of calls within one request only.
- How the session library stores a null `url` key (PHP turns a null array key into `""`) is not modelled: a null url is its own key here.
- `Config::addHttpToFormat`'s body is not part of this model; it is a parameter of the constructor.
- `displayError` (lines 148-153): it only builds a `FrontController` and delegates to it.
- Slim request parsing: a request is two maps of string parameters. Array-valued parameters and a body parsed into an object are not modelled.
- The `video` and `container` properties and the downloader are not used by the modelled operations.
- Concurrent requests on one session: the code has no concurrency of its own.
