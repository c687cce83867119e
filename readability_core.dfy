/** The Rust side of the readability wrapper: base-URL validation, the
    options object handed to the JavaScript `extract` function, and the
    decoding of what that function returns into an `Article` or a
    `ReadabilityError`. The extraction algorithm itself runs inside the
    engine and is represented only by the engine's `extract` function. */
module ReadabilityCore {
  import opened Wrappers
  import opened Strings
  import opened JsValues
  import opened Urls
  import FieldMaps

  /** Rust's `u32` and `usize` (a 64-bit target). */
  const U32_LIMIT: int := 0x1_0000_0000
  type u32 = n: int | 0 <= n < U32_LIMIT
  type usize = n: int | 0 <= n < 0x1_0000_0000_0000_0000

  // ---------------------------------------------------------------------
  // Errors

  datatype ReadabilityError =
    | HtmlParseError(detail: string)
    | ReadabilityCheckFailed
    | ExtractionError(detail: string)
    | JsEvaluation(context: string, source: EngineError)
    | InvalidOptions(detail: string)

  // ---------------------------------------------------------------------
  // Article and its decoding from a JavaScript value

  datatype Direction = Ltr | Rtl

  datatype Article = Article(
    title: string,
    content: string,
    textContent: string,
    length: u32,
    byline: Option<string>,
    direction: Option<Direction>,
    excerpt: Option<string>,
    siteName: Option<string>,
    language: Option<string>,
    publishedTime: Option<string>)

  const NotAnObject: string := "Expected JavaScript object, got a different type"

  /** `get::<String>()`, with a conversion failure reported under `context` */
  function DecodeString(v: JsValue, context: string): (r: Result<string, ReadabilityError>)
    ensures r.Ok? <==> v.Str?
    ensures r.Ok? ==> Str(r.value) == v
    ensures r.Err? ==> r.error == JsEvaluation(context, FromJs)
  {
    if v.Str? then Ok(v.s) else Err(JsEvaluation(context, FromJs))
  }

  /** `get::<u32>()`: a number that fits in 32 bits */
  function DecodeU32(v: JsValue, context: string): (r: Result<u32, ReadabilityError>)
    ensures r.Ok? <==> v.Num? && v.n < U32_LIMIT
    ensures r.Ok? ==> Num(r.value) == v
    ensures r.Err? ==> r.error == JsEvaluation(context, FromJs)
  {
    if v.Num? && v.n < U32_LIMIT then Ok(v.n) else Err(JsEvaluation(context, FromJs))
  }

  /** An optional string field: `null` and `undefined` are absent, a string
      is present, anything else does not convert. */
  function DecodeOptionalString(v: JsValue, context: string): (r: Result<Option<string>, ReadabilityError>)
    ensures IsNullish(v) ==> r == Ok(None)
    ensures v.Str? ==> r == Ok(Some(v.s))
    ensures r.Err? <==> !IsNullish(v) && !v.Str?
    ensures r.Err? ==> r.error == JsEvaluation(context, FromJs)
  {
    if IsNullish(v) then Ok(None)
    else
      var s :- DecodeString(v, context);
      Ok(Some(s))
  }

  /** The `dir` field: `"ltr"` and `"rtl"` name a direction, any other
      string and `null`/`undefined` leave it unknown. */
  function DecodeDirection(v: JsValue, context: string): (r: Result<Option<Direction>, ReadabilityError>)
    ensures IsNullish(v) ==> r == Ok(None)
    ensures v == Str("ltr") ==> r == Ok(Some(Ltr))
    ensures v == Str("rtl") ==> r == Ok(Some(Rtl))
    ensures v.Str? && v.s != "ltr" && v.s != "rtl" ==> r == Ok(None)
    ensures r.Err? <==> !IsNullish(v) && !v.Str?
    ensures r.Err? ==> r.error == JsEvaluation(context, FromJs)
  {
    if IsNullish(v) then Ok(None)
    else
      var s :- DecodeString(v, context);
      Ok(match s
         case "ltr" => Some(Ltr)
         case "rtl" => Some(Rtl)
         case _ => None)
  }

  /** `v` decodes to the optional string `o` */
  predicate OptionalStringOf(v: JsValue, o: Option<string>) {
    if o.None? then IsNullish(v) else v == Str(o.value)
  }

  /** `v` decodes to the direction `d` */
  predicate DirectionOf(v: JsValue, d: Option<Direction>) {
    match d
    case None => IsNullish(v) || (v.Str? && v.s != "ltr" && v.s != "rtl")
    case Some(Ltr) => v == Str("ltr")
    case Some(Rtl) => v == Str("rtl")
  }

  /** The properties of an article object that the wrapper reads, in the
      order in which it reads them. */
  datatype ArticleFields = ArticleFields(
    title: JsValue, byline: JsValue, dir: JsValue, content: JsValue, textContent: JsValue,
    length: JsValue, excerpt: JsValue, siteName: JsValue, lang: JsValue, publishedTime: JsValue)

  /** Read the properties by their JavaScript names. Reading a property of a
      plain object has no effect, so reading them all before converting any
      is the same as the interleaving in `try_from`. */
  function ReadArticleFields(v: JsValue): (r: ArticleFields)
    requires IsObject(v)
    ensures v.Obj? ==> && PropertyOf(v.props, "title", r.title)
                       && PropertyOf(v.props, "byline", r.byline)
                       && PropertyOf(v.props, "dir", r.dir)
                       && PropertyOf(v.props, "content", r.content)
                       && PropertyOf(v.props, "textContent", r.textContent)
                       && PropertyOf(v.props, "length", r.length)
                       && PropertyOf(v.props, "excerpt", r.excerpt)
                       && PropertyOf(v.props, "siteName", r.siteName)
                       && PropertyOf(v.props, "lang", r.lang)
                       && PropertyOf(v.props, "publishedTime", r.publishedTime)
    ensures !v.Obj? ==> r.title == Undefined
  {
    ArticleFields(Get(v, "title"), Get(v, "byline"), Get(v, "dir"), Get(v, "content"),
                  Get(v, "textContent"), Get(v, "length"), Get(v, "excerpt"),
                  Get(v, "siteName"), Get(v, "lang"), Get(v, "publishedTime"))
  }

  /** `x` is what reading `key` from an object with these properties gives:
      the property, or `undefined` when there is none. */
  predicate PropertyOf(props: map<string, JsValue>, key: string, x: JsValue) {
    if key in props then x == props[key] else x == Undefined
  }

  /** Every property has a type that converts. */
  predicate WellFormedFields(p: ArticleFields) {
    && p.title.Str?
    && (IsNullish(p.byline) || p.byline.Str?)
    && (IsNullish(p.dir) || p.dir.Str?)
    && p.content.Str?
    && p.textContent.Str?
    && p.length.Num? && p.length.n < U32_LIMIT
    && (IsNullish(p.excerpt) || p.excerpt.Str?)
    && (IsNullish(p.siteName) || p.siteName.Str?)
    && (IsNullish(p.lang) || p.lang.Str?)
    && (IsNullish(p.publishedTime) || p.publishedTime.Str?)
  }

  /** The properties carry exactly the fields of `a`. */
  predicate DescribesArticle(p: ArticleFields, a: Article) {
    && p.title == Str(a.title)
    && OptionalStringOf(p.byline, a.byline)
    && DirectionOf(p.dir, a.direction)
    && p.content == Str(a.content)
    && p.textContent == Str(a.textContent)
    && p.length == Num(a.length)
    && OptionalStringOf(p.excerpt, a.excerpt)
    && OptionalStringOf(p.siteName, a.siteName)
    && OptionalStringOf(p.lang, a.language)
    && OptionalStringOf(p.publishedTime, a.publishedTime)
  }

  /** An optional string property converts: it is nullish or a string. */
  predicate OptionalConverts(x: JsValue) {
    IsNullish(x) || x.Str?
  }

  /** The first `n` properties, in the order `try_from` reads them, convert. */
  predicate ConvertsBefore(p: ArticleFields, n: nat) {
    && (n > 0 ==> p.title.Str?)
    && (n > 1 ==> OptionalConverts(p.byline))
    && (n > 2 ==> OptionalConverts(p.dir))
    && (n > 3 ==> p.content.Str?)
    && (n > 4 ==> p.textContent.Str?)
    && (n > 5 ==> p.length.Num? && p.length.n < U32_LIMIT)
    && (n > 6 ==> OptionalConverts(p.excerpt))
    && (n > 7 ==> OptionalConverts(p.siteName))
    && (n > 8 ==> OptionalConverts(p.lang))
  }

  /** The conversions of `try_from`, in its order: the first property that
      does not convert decides the error. */
  function DecodeFields(p: ArticleFields): (r: Result<Article, ReadabilityError>)
    ensures r.Ok? <==> WellFormedFields(p)
    ensures r.Ok? ==> DescribesArticle(p, r.value)
    ensures !p.title.Str? ==> r == Err(JsEvaluation("failed to get title", FromJs))
    ensures r.Err? ==> r.error.JsEvaluation? && r.error.source == FromJs
  {
    var title :- DecodeString(p.title, "failed to get title");
    var byline :- DecodeOptionalString(p.byline, "failed to get byline as string");
    var direction :- DecodeDirection(p.dir, "failed to get dir as string");
    var content :- DecodeString(p.content, "failed to get content");
    var textContent :- DecodeString(p.textContent, "failed to get text_content");
    var length :- DecodeU32(p.length, "failed to get length");
    var excerpt :- DecodeOptionalString(p.excerpt, "failed to get excerpt as string");
    var siteName :- DecodeOptionalString(p.siteName, "failed to get site_name as string");
    var language :- DecodeOptionalString(p.lang, "failed to get lang as string");
    var publishedTime :- DecodeOptionalString(p.publishedTime, "failed to get published_time as string");
    Ok(Article(title, content, textContent, length, byline, direction,
               excerpt, siteName, language, publishedTime))
  }

  /** Past the title, too, the first property that does not convert decides
      the error and its context text: `byline` to `textContent`. */
  lemma EarlyFailureDecides(p: ArticleFields)
    ensures ConvertsBefore(p, 1) && !OptionalConverts(p.byline) ==>
              DecodeFields(p) == Err(JsEvaluation("failed to get byline as string", FromJs))
    ensures ConvertsBefore(p, 2) && !OptionalConverts(p.dir) ==>
              DecodeFields(p) == Err(JsEvaluation("failed to get dir as string", FromJs))
    ensures ConvertsBefore(p, 3) && !p.content.Str? ==>
              DecodeFields(p) == Err(JsEvaluation("failed to get content", FromJs))
    ensures ConvertsBefore(p, 4) && !p.textContent.Str? ==>
              DecodeFields(p) == Err(JsEvaluation("failed to get text_content", FromJs))
  {
  }

  /** Likewise from `length` to `publishedTime`. */
  lemma LateFailureDecides(p: ArticleFields)
    ensures ConvertsBefore(p, 5) && !(p.length.Num? && p.length.n < U32_LIMIT) ==>
              DecodeFields(p) == Err(JsEvaluation("failed to get length", FromJs))
    ensures ConvertsBefore(p, 6) && !OptionalConverts(p.excerpt) ==>
              DecodeFields(p) == Err(JsEvaluation("failed to get excerpt as string", FromJs))
    ensures ConvertsBefore(p, 7) && !OptionalConverts(p.siteName) ==>
              DecodeFields(p) == Err(JsEvaluation("failed to get site_name as string", FromJs))
    ensures ConvertsBefore(p, 8) && !OptionalConverts(p.lang) ==>
              DecodeFields(p) == Err(JsEvaluation("failed to get lang as string", FromJs))
    ensures ConvertsBefore(p, 9) && !OptionalConverts(p.publishedTime) ==>
              DecodeFields(p) == Err(JsEvaluation("failed to get published_time as string", FromJs))
  {
  }

  /** `Article::try_from`: a value that is not an object is an extraction
      error; the properties of an object are converted one by one. */
  function DecodeArticle(v: JsValue): (r: Result<Article, ReadabilityError>)
    ensures !IsObject(v) ==> r == Err(ExtractionError(NotAnObject))
    ensures r.Ok? <==> IsObject(v) && WellFormedFields(ReadArticleFields(v))
    ensures r.Ok? ==> DescribesArticle(ReadArticleFields(v), r.value)
    ensures r.Err? && IsObject(v) ==> r.error.JsEvaluation?
  {
    if !IsObject(v) then Err(ExtractionError(NotAnObject))
    else DecodeFields(ReadArticleFields(v))
  }

  /** The JavaScript form of an optional string: absent is `null`. */
  function OptionalStringToJs(o: Option<string>): JsValue {
    if o.None? then Null else Str(o.value)
  }

  function DirectionToJs(d: Option<Direction>): JsValue {
    match d
    case None => Null
    case Some(Ltr) => Str("ltr")
    case Some(Rtl) => Str("rtl")
  }

  /** An object carrying the article's fields under their JavaScript names,
      `null` for the absent ones. */
  function ArticleToJs(a: Article): (v: JsValue)
    ensures v.Obj? && "errorType" !in v.props
  {
    Obj(map[
      "title" := Str(a.title),
      "byline" := OptionalStringToJs(a.byline),
      "dir" := DirectionToJs(a.direction),
      "content" := Str(a.content),
      "textContent" := Str(a.textContent),
      "length" := Num(a.length),
      "excerpt" := OptionalStringToJs(a.excerpt),
      "siteName" := OptionalStringToJs(a.siteName),
      "lang" := OptionalStringToJs(a.language),
      "publishedTime" := OptionalStringToJs(a.publishedTime)])
  }

  /** Reading the JavaScript form of an article gives back its fields. */
  lemma ReadArticleToJs(a: Article)
    ensures ReadArticleFields(ArticleToJs(a)) ==
              ArticleFields(Str(a.title), OptionalStringToJs(a.byline), DirectionToJs(a.direction),
                            Str(a.content), Str(a.textContent), Num(a.length),
                            OptionalStringToJs(a.excerpt), OptionalStringToJs(a.siteName),
                            OptionalStringToJs(a.language), OptionalStringToJs(a.publishedTime))
  {
  }

  /** Decoding loses nothing: every article comes back from its JavaScript
      form, and such an object is never mistaken for an error. */
  lemma ArticleRoundTrip(a: Article)
    ensures DecodeArticle(ArticleToJs(a)) == Ok(a)
    ensures ClassifyResult(ArticleToJs(a)) == Ok(a)
  {
    ReadArticleToJs(a);
    var p := ReadArticleFields(ArticleToJs(a));
    assert DescribesArticle(p, a) by {
      match a.direction
      case None =>
      case Some(d) =>
    }
    DecodeDeterminedByFields(p, a);
  }

  /** Properties that convert at all convert to `a` exactly when they
      describe `a`. */
  lemma DecodeDeterminedByFields(p: ArticleFields, a: Article)
    ensures DecodeFields(p) == Ok(a) <==> DescribesArticle(p, a)
  {
    if DescribesArticle(p, a) {
      assert WellFormedFields(p);
      DescriptionsAgree(p, DecodeFields(p).value, a);
    }
  }

  /** The same properties describe at most one article. */
  lemma DescriptionsAgree(p: ArticleFields, a: Article, b: Article)
    requires DescribesArticle(p, a) && DescribesArticle(p, b)
    ensures a == b
  {
    assert a.direction == b.direction by {
      match a.direction
      case None =>
      case Some(d) =>
    }
  }

  // ---------------------------------------------------------------------
  // Options

  /** The options, one constructor per field, for stating what the setters
      and `build` do field by field. */
  datatype OptionField =
    | MaxElemsToParse | NbTopCandidates | CharThreshold | ClassesToPreserve
    | KeepClasses | DisableJsonLd | LinkDensityModifier

  const AllFields: set<OptionField> :=
    {MaxElemsToParse, NbTopCandidates, CharThreshold, ClassesToPreserve,
     KeepClasses, DisableJsonLd, LinkDensityModifier}

  /** The key under which the JavaScript side expects each option. */
  function JsKey(f: OptionField): string {
    match f
    case MaxElemsToParse => "maxElemsToParse"
    case NbTopCandidates => "nbTopCandidates"
    case CharThreshold => "charThreshold"
    case ClassesToPreserve => "classesToPreserve"
    case KeepClasses => "keepClasses"
    case DisableJsonLd => "disableJSONLD"
    case LinkDensityModifier => "linkDensityModifier"
  }

  const OptionKeys: set<string> :=
    {"maxElemsToParse", "nbTopCandidates", "charThreshold", "classesToPreserve",
     "keepClasses", "disableJSONLD", "linkDensityModifier"}

  datatype ReadabilityOptions = ReadabilityOptions(
    maxElemsToParse: Option<usize>,
    nbTopCandidates: Option<usize>,
    charThreshold: Option<usize>,
    classesToPreserve: Option<seq<string>>,
    keepClasses: Option<bool>,
    disableJsonLd: Option<bool>,
    linkDensityModifier: Option<F32>)
  {
    /** The JavaScript value field `f` is set to, if it is set. */
    function Value(f: OptionField): Option<JsValue> {
      match f
      case MaxElemsToParse => if maxElemsToParse.Some? then Some(Num(maxElemsToParse.value)) else None
      case NbTopCandidates => if nbTopCandidates.Some? then Some(Num(nbTopCandidates.value)) else None
      case CharThreshold => if charThreshold.Some? then Some(Num(charThreshold.value)) else None
      case ClassesToPreserve => if classesToPreserve.Some? then Some(StrArray(classesToPreserve.value)) else None
      case KeepClasses => if keepClasses.Some? then Some(Bool(keepClasses.value)) else None
      case DisableJsonLd => if disableJsonLd.Some? then Some(Bool(disableJsonLd.value)) else None
      case LinkDensityModifier => if linkDensityModifier.Some? then Some(Float(linkDensityModifier.value)) else None
    }

    /** `other` holds the same value as this one in every field except `f`. */
    predicate SameOtherFields(other: ReadabilityOptions, f: OptionField) {
      && (f == MaxElemsToParse || other.maxElemsToParse == maxElemsToParse)
      && (f == NbTopCandidates || other.nbTopCandidates == nbTopCandidates)
      && (f == CharThreshold || other.charThreshold == charThreshold)
      && (f == ClassesToPreserve || other.classesToPreserve == classesToPreserve)
      && (f == KeepClasses || other.keepClasses == keepClasses)
      && (f == DisableJsonLd || other.disableJsonLd == disableJsonLd)
      && (f == LinkDensityModifier || other.linkDensityModifier == linkDensityModifier)
    }

    /** `ReadabilityOptions::new()`: every field unset */
    static function New(): (r: ReadabilityOptions)
      ensures forall f :: r.Value(f).None?
    {
      ReadabilityOptions(None, None, None, None, None, None, None)
    }

    function SetMaxElemsToParse(val: usize): (r: ReadabilityOptions)
      ensures r.Value(MaxElemsToParse) == Some(Num(val))
      ensures forall f :: f != MaxElemsToParse ==> r.Value(f) == Value(f)
      ensures r.maxElemsToParse == Some(val) && SameOtherFields(r, MaxElemsToParse)
    {
      this.(maxElemsToParse := Some(val))
    }

    function SetNbTopCandidates(val: usize): (r: ReadabilityOptions)
      ensures r.Value(NbTopCandidates) == Some(Num(val))
      ensures forall f :: f != NbTopCandidates ==> r.Value(f) == Value(f)
      ensures r.nbTopCandidates == Some(val) && SameOtherFields(r, NbTopCandidates)
    {
      this.(nbTopCandidates := Some(val))
    }

    function SetCharThreshold(val: usize): (r: ReadabilityOptions)
      ensures r.Value(CharThreshold) == Some(Num(val))
      ensures forall f :: f != CharThreshold ==> r.Value(f) == Value(f)
      ensures r.charThreshold == Some(val) && SameOtherFields(r, CharThreshold)
    {
      this.(charThreshold := Some(val))
    }

    function SetClassesToPreserve(val: seq<string>): (r: ReadabilityOptions)
      ensures r.Value(ClassesToPreserve) == Some(StrArray(val))
      ensures forall f :: f != ClassesToPreserve ==> r.Value(f) == Value(f)
      ensures r.classesToPreserve == Some(val) && SameOtherFields(r, ClassesToPreserve)
    {
      this.(classesToPreserve := Some(val))
    }

    function SetKeepClasses(val: bool): (r: ReadabilityOptions)
      ensures r.Value(KeepClasses) == Some(Bool(val))
      ensures forall f :: f != KeepClasses ==> r.Value(f) == Value(f)
      ensures r.keepClasses == Some(val) && SameOtherFields(r, KeepClasses)
    {
      this.(keepClasses := Some(val))
    }

    function SetDisableJsonLd(val: bool): (r: ReadabilityOptions)
      ensures r.Value(DisableJsonLd) == Some(Bool(val))
      ensures forall f :: f != DisableJsonLd ==> r.Value(f) == Value(f)
      ensures r.disableJsonLd == Some(val) && SameOtherFields(r, DisableJsonLd)
    {
      this.(disableJsonLd := Some(val))
    }

    function SetLinkDensityModifier(val: F32): (r: ReadabilityOptions)
      ensures r.Value(LinkDensityModifier) == Some(Float(val))
      ensures forall f :: f != LinkDensityModifier ==> r.Value(f) == Value(f)
      ensures r.linkDensityModifier == Some(val) && SameOtherFields(r, LinkDensityModifier)
    {
      this.(linkDensityModifier := Some(val))
    }

    /** `build`: start from an empty object and set one key per option that
        is present. Each step takes one more field into the description. */
    method Build() returns (obj: map<string, JsValue>)
      ensures obj == EncodedOptions(this)
    {
      obj := map[];
      ghost var done: set<OptionField> := {};
      EncodeNothing(this);
      StepMaxElemsToParse(this, done, obj);
      obj := if maxElemsToParse.Some? then obj["maxElemsToParse" := Num(maxElemsToParse.value)] else obj;
      done := done + {MaxElemsToParse};
      StepNbTopCandidates(this, done, obj);
      obj := if nbTopCandidates.Some? then obj["nbTopCandidates" := Num(nbTopCandidates.value)] else obj;
      done := done + {NbTopCandidates};
      StepCharThreshold(this, done, obj);
      obj := if charThreshold.Some? then obj["charThreshold" := Num(charThreshold.value)] else obj;
      done := done + {CharThreshold};
      StepClassesToPreserve(this, done, obj);
      obj := if classesToPreserve.Some? then obj["classesToPreserve" := StrArray(classesToPreserve.value)] else obj;
      done := done + {ClassesToPreserve};
      StepKeepClasses(this, done, obj);
      obj := if keepClasses.Some? then obj["keepClasses" := Bool(keepClasses.value)] else obj;
      done := done + {KeepClasses};
      StepDisableJsonLd(this, done, obj);
      obj := if disableJsonLd.Some? then obj["disableJSONLD" := Bool(disableJsonLd.value)] else obj;
      done := done + {DisableJsonLd};
      StepLinkDensityModifier(this, done, obj);
      obj := if linkDensityModifier.Some? then obj["linkDensityModifier" := Float(linkDensityModifier.value)] else obj;
      done := done + {LinkDensityModifier};
      assert done == AllFields;
    }
  }

  /** The options object: one key per option that is set, carrying that
      option's value. */
  function EncodedOptions(o: ReadabilityOptions): map<string, JsValue> {
    EncodedFields(o, AllFields)
  }

  /** The options object restricted to the fields of `fs`. */
  function EncodedFields(o: ReadabilityOptions, fs: set<OptionField>): map<string, JsValue> {
    JsKeyInjective();
    FieldMaps.FieldMap(fs, JsKey, o.Value)
  }

  lemma EncodeNothing(o: ReadabilityOptions)
    ensures EncodedFields(o, {}) == map[]
  {
    JsKeyInjective();
    FieldMaps.NoValues({}, JsKey, o.Value);
  }

  /** Taking one more field in adds that field's key when it is set and
      nothing otherwise. */
  lemma EncodeOneMore(o: ReadabilityOptions, fs: set<OptionField>, f: OptionField)
    requires f !in fs
    ensures EncodedFields(o, fs + {f}) ==
              if o.Value(f).Some? then EncodedFields(o, fs)[JsKey(f) := o.Value(f).value] else EncodedFields(o, fs)
  {
    JsKeyInjective();
    FieldMaps.AddField(fs, JsKey, o.Value, f);
  }

  // The steps of `build`, one per field, each as written there.

  lemma StepMaxElemsToParse(o: ReadabilityOptions, fs: set<OptionField>, m: map<string, JsValue>)
    requires m == EncodedFields(o, fs) && MaxElemsToParse !in fs
    ensures (if o.maxElemsToParse.Some? then m["maxElemsToParse" := Num(o.maxElemsToParse.value)] else m) == EncodedFields(o, fs + {MaxElemsToParse})
  {
    EncodeOneMore(o, fs, MaxElemsToParse);
  }

  lemma StepNbTopCandidates(o: ReadabilityOptions, fs: set<OptionField>, m: map<string, JsValue>)
    requires m == EncodedFields(o, fs) && NbTopCandidates !in fs
    ensures (if o.nbTopCandidates.Some? then m["nbTopCandidates" := Num(o.nbTopCandidates.value)] else m) == EncodedFields(o, fs + {NbTopCandidates})
  {
    EncodeOneMore(o, fs, NbTopCandidates);
  }

  lemma StepCharThreshold(o: ReadabilityOptions, fs: set<OptionField>, m: map<string, JsValue>)
    requires m == EncodedFields(o, fs) && CharThreshold !in fs
    ensures (if o.charThreshold.Some? then m["charThreshold" := Num(o.charThreshold.value)] else m) == EncodedFields(o, fs + {CharThreshold})
  {
    EncodeOneMore(o, fs, CharThreshold);
  }

  lemma StepClassesToPreserve(o: ReadabilityOptions, fs: set<OptionField>, m: map<string, JsValue>)
    requires m == EncodedFields(o, fs) && ClassesToPreserve !in fs
    ensures (if o.classesToPreserve.Some? then m["classesToPreserve" := StrArray(o.classesToPreserve.value)] else m) == EncodedFields(o, fs + {ClassesToPreserve})
  {
    EncodeOneMore(o, fs, ClassesToPreserve);
  }

  lemma StepKeepClasses(o: ReadabilityOptions, fs: set<OptionField>, m: map<string, JsValue>)
    requires m == EncodedFields(o, fs) && KeepClasses !in fs
    ensures (if o.keepClasses.Some? then m["keepClasses" := Bool(o.keepClasses.value)] else m) == EncodedFields(o, fs + {KeepClasses})
  {
    EncodeOneMore(o, fs, KeepClasses);
  }

  lemma StepDisableJsonLd(o: ReadabilityOptions, fs: set<OptionField>, m: map<string, JsValue>)
    requires m == EncodedFields(o, fs) && DisableJsonLd !in fs
    ensures (if o.disableJsonLd.Some? then m["disableJSONLD" := Bool(o.disableJsonLd.value)] else m) == EncodedFields(o, fs + {DisableJsonLd})
  {
    EncodeOneMore(o, fs, DisableJsonLd);
  }

  lemma StepLinkDensityModifier(o: ReadabilityOptions, fs: set<OptionField>, m: map<string, JsValue>)
    requires m == EncodedFields(o, fs) && LinkDensityModifier !in fs
    ensures (if o.linkDensityModifier.Some? then m["linkDensityModifier" := Float(o.linkDensityModifier.value)] else m) == EncodedFields(o, fs + {LinkDensityModifier})
  {
    EncodeOneMore(o, fs, LinkDensityModifier);
  }


  /** The options object carries exactly the keys of the options that are
      set, each with that option's value, and no other key. */
  lemma EncodedOptionsKeys(o: ReadabilityOptions)
    ensures EncodedOptions(o).Keys <= OptionKeys
    ensures forall f :: JsKey(f) in EncodedOptions(o) <==> o.Value(f).Some?
    ensures forall f :: JsKey(f) in EncodedOptions(o) ==> EncodedOptions(o)[JsKey(f)] == o.Value(f).value
  {
    JsKeyInjective();
    forall k | k in EncodedOptions(o) ensures k in OptionKeys {
      FieldMaps.KeysOwned(AllFields, JsKey, o.Value, k);
    }
    forall f ensures JsKey(f) in EncodedOptions(o) <==> o.Value(f).Some? {
      FieldMaps.Lookup(AllFields, JsKey, o.Value, f);
    }
    forall f | JsKey(f) in EncodedOptions(o) ensures EncodedOptions(o)[JsKey(f)] == o.Value(f).value {
      FieldMaps.Lookup(AllFields, JsKey, o.Value, f);
    }
  }

  /** Distinct options have distinct keys. */
  lemma JsKeyInjective()
    ensures FieldMaps.Injective(JsKey)
  {
  }

  /** `ReadabilityOptions::new().build()` is the empty object. */
  lemma DefaultOptionsEncodeEmpty()
    ensures EncodedOptions(ReadabilityOptions.New()) == map[]
  {
    var o := ReadabilityOptions.New();
    JsKeyInjective();
    FieldMaps.NoValues(AllFields, JsKey, o.Value);
  }

  /** A setter changes the built object in one key: the one it sets. */
  lemma EncodeAfterSet(o: ReadabilityOptions, r: ReadabilityOptions, f: OptionField, v: JsValue)
    requires r.Value(f) == Some(v)
    requires forall g :: g != f ==> r.Value(g) == o.Value(g)
    ensures EncodedOptions(r) == EncodedOptions(o)[JsKey(f) := v]
  {
    JsKeyInjective();
    FieldMaps.ChangeField(AllFields, JsKey, o.Value, r.Value, f, v);
  }

  /** The options argument of the JavaScript call. */
  function OptionsObject(options: Option<ReadabilityOptions>): (r: Option<map<string, JsValue>>)
    ensures r.Some? <==> options.Some?
    ensures r.Some? ==> r.value.Keys <= OptionKeys
    ensures r.Some? ==> forall f :: JsKey(f) in r.value <==> options.value.Value(f).Some?
    ensures r.Some? ==> forall f :: JsKey(f) in r.value ==> r.value[JsKey(f)] == options.value.Value(f).value
  {
    if options.Some? then
      EncodedOptionsKeys(options.value);
      Some(EncodedOptions(options.value))
    else None
  }

  // ---------------------------------------------------------------------
  // Base URL validation and result classification

  /** `validate_base_url` */
  function ValidateBaseUrl(url: string, parse: UrlParser): (r: Result<string, ReadabilityError>)
    ensures StartsWith(url, "javascript:") || StartsWith(url, "data:") ==>
              r == Err(InvalidOptions("Invalid base URL scheme"))
    ensures r.Ok? <==> && !StartsWith(url, "javascript:") && !StartsWith(url, "data:")
                       && parse(url).Some? && parse(url).value.scheme in {"http", "https"}
    ensures r.Ok? ==> r.value == url
    ensures r.Err? ==> r.error.InvalidOptions?
  {
    if StartsWith(url, "javascript:") || StartsWith(url, "data:") then
      Err(InvalidOptions("Invalid base URL scheme"))
    else
      match parse(url)
      case Some(parsed) =>
        if parsed.scheme == "http" || parsed.scheme == "https" then Ok(url)
        else Err(InvalidOptions("Base URL must be HTTP(S)"))
      case None => Err(InvalidOptions("Base URL must be HTTP(S)"))
  }

  /** The error that an `errorType` tag and message stand for. */
  function ErrorFromTag(tag: string, msg: string): (e: ReadabilityError)
    ensures tag == "HtmlParseError" ==> e == HtmlParseError(msg)
    ensures tag == "ExtractionError" ==> e == ExtractionError(msg)
    ensures tag == "RuntimeError" ==>
              e.JsEvaluation? && e.source == Unknown && Contains(e.context, msg)
    ensures tag !in {"HtmlParseError", "ExtractionError", "RuntimeError"} ==>
              e.ExtractionError? && Contains(e.detail, tag) && Contains(e.detail, msg)
    ensures !e.InvalidOptions? && !e.ReadabilityCheckFailed?
  {
    match tag
    case "HtmlParseError" => HtmlParseError(msg)
    case "ExtractionError" => ExtractionError(msg)
    case "RuntimeError" =>
      var context := "JavaScript runtime error: " + msg;
      ContainsInfix("JavaScript runtime error: ", msg, "");
      assert "JavaScript runtime error: " + msg + "" == context;
      JsEvaluation(context, Unknown)
    case _ =>
      var before, after := "Unknown error type '", "': " + msg;
      var detail := before + tag + after;
      ContainsInfix(before, tag, after);
      ContainsInfix(before + tag + "': ", msg, "");
      assert before + tag + "': " + msg + "" == detail;
      ExtractionError(detail)
  }

  /** The message of an error object: its `error` string, or a default. */
  function ErrorMessage(v: JsValue): (m: string)
    requires IsObject(v)
    ensures Get(v, "error").Str? ==> m == Get(v, "error").s
    ensures !Get(v, "error").Str? ==> m == "Unknown error"
  {
    if Get(v, "error").Str? then Get(v, "error").s else "Unknown error"
  }

  /** What `extract` makes of the value the JavaScript function returned: an
      object with a string `errorType` is an error, anything else is decoded
      as an article. */
  function ClassifyResult(v: JsValue): (r: Result<Article, ReadabilityError>)
    ensures IsObject(v) && Get(v, "errorType").Str? ==>
              r == Err(ErrorFromTag(Get(v, "errorType").s, ErrorMessage(v)))
    ensures IsObject(v) && Get(v, "errorType").Str? && !Get(v, "error").Str? ==>
              r == Err(ErrorFromTag(Get(v, "errorType").s, "Unknown error"))
    ensures r.Ok? ==> IsObject(v) && !Get(v, "errorType").Str? && DescribesArticle(ReadArticleFields(v), r.value)
    ensures !IsObject(v) ==> r == Err(ExtractionError(NotAnObject))
    ensures IsObject(v) && !Get(v, "errorType").Str? ==> r == DecodeArticle(v)
    ensures r.Err? ==> !r.error.InvalidOptions? && !r.error.ReadabilityCheckFailed?
  {
    if IsObject(v) && Get(v, "errorType").Str? then
      Err(ErrorFromTag(Get(v, "errorType").s, ErrorMessage(v)))
    else
      DecodeArticle(v)
  }

  // ---------------------------------------------------------------------
  // The engine and the extraction entry points

  /** The JavaScript `extract(html, baseUrl, options)` function. */
  type JsFunction = (string, Option<string>, Option<map<string, JsValue>>) -> Result<JsValue, EngineError>

  /** The engine context: looking up the global `extract` either finds the
      function or fails. */
  datatype JsContext = JsContext(extractFn: Result<JsFunction, EngineError>)

  /** A base URL that is present must validate; an absent one stays absent. */
  function ValidateOptionalBaseUrl(baseUrl: Option<string>, parse: UrlParser): (r: Result<Option<string>, ReadabilityError>)
    ensures baseUrl.None? ==> r == Ok(None)
    ensures baseUrl.Some? && r.Ok? ==> r == Ok(baseUrl)
    ensures baseUrl.Some? ==> (r.Ok? <==> ValidateBaseUrl(baseUrl.value, parse).Ok?)
  {
    match baseUrl
    case None => Ok(None)
    case Some(url) =>
      var clean :- ValidateBaseUrl(url, parse);
      Ok(Some(clean))
  }

  /** The base URL is acceptable: absent, or validating. */
  predicate BaseUrlAccepted(baseUrl: Option<string>, parse: UrlParser) {
    baseUrl.None? || ValidateBaseUrl(baseUrl.value, parse).Ok?
  }

  datatype Readability = Readability(context: JsContext) {

    /** `extract`: validate the base URL, then call the engine's `extract`
        with the HTML, the base URL and the options object, and classify the
        value it returns. */
    function Extract(html: string, baseUrl: Option<string>, options: Option<ReadabilityOptions>,
                     parse: UrlParser): (r: Result<Article, ReadabilityError>)
      ensures !BaseUrlAccepted(baseUrl, parse) ==> r == Err(ValidateBaseUrl(baseUrl.value, parse).error)
      ensures r.Err? && r.error.InvalidOptions? ==> !BaseUrlAccepted(baseUrl, parse)
      ensures r.Err? ==> !r.error.ReadabilityCheckFailed?
      ensures BaseUrlAccepted(baseUrl, parse) && context.extractFn.Err? ==>
                r == Err(JsEvaluation("extract function not found", context.extractFn.error))
      ensures BaseUrlAccepted(baseUrl, parse) && context.extractFn.Ok? ==>
                var call := context.extractFn.value(html, baseUrl, OptionsObject(options));
                r == if call.Ok? then ClassifyResult(call.value)
                     else Err(JsEvaluation("Failed to call extract", call.error))
      ensures r.Ok? ==> BaseUrlAccepted(baseUrl, parse) && context.extractFn.Ok?
    {
      var cleanBaseUrl :- ValidateOptionalBaseUrl(baseUrl, parse);
      match context.extractFn
      case Err(e) => Err(JsEvaluation("extract function not found", e))
      case Ok(extractFn) =>
        match extractFn(html, cleanBaseUrl, OptionsObject(options))
        case Err(e) => Err(JsEvaluation("Failed to call extract", e))
        case Ok(result) => ClassifyResult(result)
    }

    /** `parse`: no base URL, default options. */
    function Parse(html: string, parse: UrlParser): (r: Result<Article, ReadabilityError>)
      ensures r.Err? ==> !r.error.InvalidOptions? && !r.error.ReadabilityCheckFailed?
      ensures context.extractFn.Ok? && context.extractFn.value(html, None, None).Ok? ==>
                r == ClassifyResult(context.extractFn.value(html, None, None).value)
    {
      Extract(html, None, None, parse)
    }

    /** `parse_with_url` */
    function ParseWithUrl(html: string, baseUrl: string, parse: UrlParser): (r: Result<Article, ReadabilityError>)
      ensures StartsWith(baseUrl, "javascript:") || StartsWith(baseUrl, "data:") ==>
                r == Err(InvalidOptions("Invalid base URL scheme"))
      ensures r.Ok? ==> parse(baseUrl).Some? && parse(baseUrl).value.scheme in {"http", "https"}
    {
      Extract(html, Some(baseUrl), None, parse)
    }

    /** `parse_with_options` */
    function ParseWithOptions(html: string, baseUrl: Option<string>, options: Option<ReadabilityOptions>,
                              parse: UrlParser): (r: Result<Article, ReadabilityError>)
      ensures r.Err? && r.error.InvalidOptions? ==> baseUrl.Some?
      ensures r.Ok? ==> BaseUrlAccepted(baseUrl, parse)
    {
      Extract(html, baseUrl, options, parse)
    }
  }

  /** An object the engine returns that is not a plain object (an array, a
      function, ...) carries, in this model, no `errorType` and no `title`,
      so it is reported as the missing title. */
  lemma NonPlainObjectResult(v: JsValue)
    requires IsObject(v) && !v.Obj?
    ensures ClassifyResult(v) == Err(JsEvaluation("failed to get title", FromJs))
  {
  }

  /** Scenario: `javascript:alert(1)` is refused whatever the parser and the
      engine would do; `https://example.com/a` is passed to the engine
      unchanged when it parses with scheme `https`. */
  lemma BaseUrlScenarios(parse: UrlParser)
    requires parse("https://example.com/a").Some?
    requires parse("https://example.com/a").value.scheme == "https"
    ensures ValidateBaseUrl("javascript:alert(1)", parse) == Err(InvalidOptions("Invalid base URL scheme"))
    ensures ValidateBaseUrl("https://example.com/a", parse) == Ok("https://example.com/a")
  {
    assert StartsWith("javascript:alert(1)", "javascript:");
    FirstCharacterDiffers("https://example.com/a", "javascript:");
    FirstCharacterDiffers("https://example.com/a", "data:");
  }
}
