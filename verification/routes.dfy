/**
 * The request decisions of the HTTP routes: the image lookup `GET /:id` (routes/img.js, duplicated
 * in routes/index.js) and the input checks of `POST /write` and `POST /read` (routes/serdes.js).
 *
 * JavaScript's coercions are abstracted: `parseInt(text, 10)` yields an integer or NaN, and
 * `Number(value)` yields a number or NaN; which text gives which is left to the caller.
 */
module Routes {

  /** The outcome of `parseInt(req.params.id, 10)`. */
  datatype ParsedId = NotANumber | Id(n: int)

  /** The outcome of `Number(field)`: only whether it is NaN matters to the handlers. */
  datatype JsNumber = NaN | Num(value: real)

  /** The coerced request body of the serdes routes. */
  datatype DeviceRequest = DeviceRequest(deviceType: JsNumber, deviceRegister: JsNumber, devicRegisterValue: JsNumber)

  /** A response: a status with a text body, or a file sent from a directory (status 200). */
  datatype Reply = Text(status: int, body: string) | File(dir: string, name: string)

  const ImageDir: string := "public/images"
  const FirstImageId: int := 1
  const LastImageId: int := 16

  /** The decimal digits of a natural number. */
  function Decimal(n: nat): (s: string)
    ensures |s| >= 1
    ensures forall i :: 0 <= i < |s| ==> '0' <= s[i] <= '9'
    decreases n
  {
    var digit := ['0' + (n % 10) as char];
    if n < 10 then digit else Decimal(n / 10) + digit
  }

  /** The number a string of decimal digits denotes. */
  function DigitsValue(s: string): int {
    if |s| == 0 then 0 else 10 * DigitsValue(s[..|s| - 1]) + ((s[|s| - 1] as int) - ('0' as int))
  }

  /** Decimal and DigitsValue are inverse: the digits denote the number they were made from. */
  lemma {:induction false} DecimalValue(n: nat)
    ensures DigitsValue(Decimal(n)) == n
    decreases n
  {
    var s := Decimal(n);
    var digit := ['0' + (n % 10) as char];
    if n >= 10 {
      DecimalValue(n / 10);
      assert s[..|s| - 1] == Decimal(n / 10);
    }
    assert s[|s| - 1] == digit[0];
  }

  /** Hence distinct natural numbers have distinct decimal texts. */
  lemma DecimalInjective(a: nat, b: nat)
    requires Decimal(a) == Decimal(b)
    ensures a == b
  {
    DecimalValue(a);
    DecimalValue(b);
  }

  /** The text of the id in the template literal `IMAGE_ALARM_${id}`. */
  function IdText(id: ParsedId): string {
    match id
    case NotANumber => "NaN"
    case Id(n) => if n < 0 then "-" + Decimal(-n) else Decimal(n)
  }

  /** The environment variable naming image `id`. */
  function EnvKey(id: ParsedId): string {
    "IMAGE_ALARM_" + IdText(id)
  }

  /** The id compares below 1 or above 16. NaN compares false both ways, so it is never out of range. */
  predicate OutOfRange(id: ParsedId) {
    id.Id? && (id.n < FirstImageId || id.n > LastImageId)
  }

  /** The environment names a file for this key: the variable is set and is not the empty string. */
  predicate Names(env: map<string, string>, key: string) {
    key in env && env[key] != ""
  }

  /** The `GET /:id` handler of routes/img.js, as written. */
  function ImageRoute(id: ParsedId, env: map<string, string>): (r: Reply)
    // an id below 1 or above 16 is refused, whatever the environment holds
    ensures r == Text(400, "Invalid image ID") <==> OutOfRange(id)
    // otherwise the environment decides between "not found" and the file it names
    ensures r == Text(404, "Image not found") <==> !OutOfRange(id) && !Names(env, EnvKey(id))
    ensures r.File? <==> !OutOfRange(id) && Names(env, EnvKey(id))
    ensures r.File? ==> r.dir == "public/images" && r.name == env[EnvKey(id)]
  {
    if OutOfRange(id) then Text(400, "Invalid image ID")
    else
      var key := EnvKey(id);
      if key !in env || env[key] == "" then Text(404, "Image not found")
      else File(ImageDir, env[key])
  }

  /** The first character of an id's text tells NaN, negative and non-negative ids apart. */
  lemma IdTextHead(id: ParsedId)
    ensures |IdText(id)| > 0
    ensures id.NotANumber? ==> IdText(id)[0] == 'N'
    ensures id.Id? && id.n < 0 ==> IdText(id)[0] == '-'
    ensures id.Id? && id.n >= 0 ==> '0' <= IdText(id)[0] <= '9'
  {
  }

  /** Distinct ids look up distinct environment variables, and none of them is the NaN variable. */
  lemma EnvKeyInjective(a: ParsedId, b: ParsedId)
    requires EnvKey(a) == EnvKey(b)
    ensures a == b
  {
    var prefix := "IMAGE_ALARM_";
    var ta, tb := IdText(a), IdText(b);
    assert ta == EnvKey(a)[|prefix|..] == EnvKey(b)[|prefix|..] == tb;
    IdTextHead(a);
    IdTextHead(b);
    if a.Id? && b.Id? && a.n < 0 && b.n < 0 {
      assert ta[1..] == Decimal(-a.n) && tb[1..] == Decimal(-b.n);
      DecimalInjective(-a.n, -b.n);
    } else if a.Id? && b.Id? && a.n >= 0 && b.n >= 0 {
      DecimalInjective(a.n, b.n);
    }
  }

  /** A NaN id is not refused: it is looked up as `IMAGE_ALARM_NaN`, and with no such variable the reply is 404. */
  lemma NaNIdReachesLookup()
    ensures ImageRoute(NotANumber, map[]) == Text(404, "Image not found")
    ensures ImageRoute(NotANumber, map["IMAGE_ALARM_NaN" := "x.png"]) == File("public/images", "x.png")
  {
    assert EnvKey(NotANumber) == "IMAGE_ALARM_NaN";
  }

  /** The `GET /:id` handler of routes/index.js, a copy of the one in routes/img.js. */
  function IndexRoute(id: ParsedId, env: map<string, string>): Reply {
    if id.Id? && (id.n < 1 || id.n > 16) then Text(400, "Invalid image ID")
    else
      var key := EnvKey(id);
      if key !in env || env[key] == "" then Text(404, "Image not found")
      else File(ImageDir, env[key])
  }

  /** The two copies decide alike on every id and every environment. */
  lemma IndexRouteMatchesImageRoute(id: ParsedId, env: map<string, string>)
    ensures IndexRoute(id, env) == ImageRoute(id, env)
  {
  }

  /** The image handler with the id check it evidently intends: anything but an integer in 1..16 is refused. */
  function ImageRouteChecked(id: ParsedId, env: map<string, string>): (r: Reply)
    ensures r == Text(400, "Invalid image ID") <==> !(id.Id? && FirstImageId <= id.n <= LastImageId)
    ensures r.File? ==> id.Id? && FirstImageId <= id.n <= LastImageId && Names(env, EnvKey(id))
  {
    if id.NotANumber? then Text(400, "Invalid image ID") else ImageRoute(id, env)
  }

  /** The correction only changes the reply for NaN ids. */
  lemma CheckedAgreesOnNumbers(id: ParsedId, env: map<string, string>)
    ensures id.Id? ==> ImageRouteChecked(id, env) == ImageRoute(id, env)
    ensures id.NotANumber? ==> ImageRouteChecked(id, env) != ImageRoute(id, env)
  {
  }

  /** The `POST /write` handler. */
  function WriteRoute(req: DeviceRequest): (r: Reply)
    ensures r == Text(400, "Invalid input") <==>
      req.deviceType.NaN? || req.deviceRegister.NaN? || req.devicRegisterValue.NaN?
    ensures r != Text(400, "Invalid input") ==> r == Text(200, "Data processed successfully")
  {
    if req.deviceType.NaN? || req.deviceRegister.NaN? || req.devicRegisterValue.NaN? then Text(400, "Invalid input")
    else Text(200, "Data processed successfully")
  }

  /** The `POST /read` handler. */
  function ReadRoute(req: DeviceRequest): (r: Reply)
    ensures r == Text(400, "Invalid input") <==> req.deviceType.NaN? || req.deviceRegister.NaN?
    ensures r != Text(400, "Invalid input") ==> r == Text(200, "Hello, World!")
  {
    if req.deviceType.NaN? || req.deviceRegister.NaN? then Text(400, "Invalid input")
    else Text(200, "Hello, World!")
  }

  /** The register value plays no part in a read. */
  lemma ReadIgnoresRegisterValue(req: DeviceRequest, value: JsNumber)
    ensures ReadRoute(req.(devicRegisterValue := value)) == ReadRoute(req)
  {
  }

  /** Whether a coerced field is NaN: all the serdes routes look at. */
  predicate SameNaNs(a: DeviceRequest, b: DeviceRequest) {
    && a.deviceType.NaN? == b.deviceType.NaN?
    && a.deviceRegister.NaN? == b.deviceRegister.NaN?
    && a.devicRegisterValue.NaN? == b.devicRegisterValue.NaN?
  }

  /** Both decisions depend only on which fields are NaN, never on the numbers themselves. */
  lemma DecisionsDependOnlyOnNaN(a: DeviceRequest, b: DeviceRequest)
    requires SameNaNs(a, b)
    ensures WriteRoute(a) == WriteRoute(b)
    ensures ReadRoute(a) == ReadRoute(b)
  {
  }

  /** /write is at least as strict as /read: a body accepted by /write is accepted by /read. */
  lemma WriteStricterThanRead(req: DeviceRequest)
    ensures WriteRoute(req).status == 200 ==> ReadRoute(req) == Text(200, "Hello, World!")
    ensures ReadRoute(req).status == 400 ==> WriteRoute(req) == Text(400, "Invalid input")
  {
  }
}
