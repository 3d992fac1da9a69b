/** The request validator: total checks that collect error messages for user, product
    and category bodies, pagination and id parameters and uploaded files, plus the
    e-mail shape test and the string sanitiser. */
module Validator {
  import opened Wrappers
  import opened JsText

  // ---------------------------------------------------------------------------
  // JavaScript values as they arrive from a parsed request body
  // ---------------------------------------------------------------------------

  /** A JavaScript value as the checks see it. `Obj` is any object or array;
      `Num` is a finite number, `NaN` the one non-number number. */
  datatype JsValue = Undefined | Null | Bool(b: bool) | Str(s: string) | Num(x: real) | NaN | Obj

  /** An object's own properties; a property it lacks reads as `undefined`. */
  type JsObject = map<string, JsValue>

  function Field(o: JsObject, key: string): JsValue {
    if key in o then o[key] else Undefined
  }

  /** JavaScript truthiness (ECMA-262 ToBoolean). */
  predicate Truthy(v: JsValue) {
    match v
    case Undefined => false
    case Null => false
    case Bool(b) => b
    case Str(s) => |s| > 0
    case Num(x) => x != 0.0
    case NaN => false
    case Obj => true
  }

  /** The results of the `typeof` operator that these values can produce. */
  datatype JsType = UndefinedType | ObjectType | BooleanType | StringType | NumberType {
    /** The string `typeof` yields. */
    function Name(): string {
      match this
      case UndefinedType => "undefined"
      case ObjectType => "object"
      case BooleanType => "boolean"
      case StringType => "string"
      case NumberType => "number"
    }
  }

  /** The `typeof` operator: `null` is an object, `NaN` a number. */
  function TypeOf(v: JsValue): (t: JsType)
    ensures t == StringType <==> v.Str?
    ensures t == NumberType <==> v.Num? || v.NaN?
    ensures t == ObjectType <==> v.Null? || v.Obj?
  {
    match v
    case Undefined => UndefinedType
    case Null => ObjectType
    case Bool(_) => BooleanType
    case Str(_) => StringType
    case Num(_) => NumberType
    case NaN => NumberType
    case Obj => ObjectType
  }

  /** `value < bound` for a number; every comparison with NaN is false. */
  predicate NumberBelow(v: JsValue, bound: real)
    requires v.Num? || v.NaN?
  {
    v.Num? && v.x < bound
  }

  /** `value <= bound` for a number. */
  predicate NumberAtMost(v: JsValue, bound: real)
    requires v.Num? || v.NaN?
  {
    v.Num? && v.x <= bound
  }

  /** The `length` of a JavaScript string: UTF-16 code units, so a character
      outside the Basic Multilingual Plane counts twice. */
  function Utf16Length(s: string): (n: nat)
    ensures |s| <= n <= 2 * |s|
  {
    if s == [] then 0 else CodeUnits(s[0]) + Utf16Length(s[1..])
  }

  /** One code unit for a character of the Basic Multilingual Plane, two (a
      surrogate pair) for any other. */
  function CodeUnits(c: char): nat {
    if c as int > 0xFFFF then 2 else 1
  }

  // ---------------------------------------------------------------------------
  // Errors and results
  // ---------------------------------------------------------------------------

  /** One pushed error message per constructor, in the order the checks run. */
  datatype Issue =
    | UsernameRequired | UsernameLength | EmailRequired | EmailFormat
    | ProductNameRequired | ProductNameTooLong | ProductDescriptionType
    | PriceInvalid | StockInvalid | CategoryIdInvalid
    | CategoryNameRequired | CategoryNameTooLong | CategoryDescriptionType
    | PageInvalid | LimitInvalid | IdInvalid
    | NoFile | FileTooLarge | FileTypeUnsupported

  /** The text the validator pushes for each issue. */
  function Message(i: Issue): string {
    match i
    case UsernameRequired => "用户名不能为空"
    case UsernameLength => "用户名长度必须在3-50个字符之间"
    case EmailRequired => "邮箱不能为空"
    case EmailFormat => "邮箱格式不正确"
    case ProductNameRequired => "产品名称不能为空"
    case ProductNameTooLong => "产品名称不能超过200个字符"
    case ProductDescriptionType => "产品描述必须是字符串"
    case PriceInvalid => "产品价格必须是大于0的数字"
    case StockInvalid => "库存必须是非负整数"
    case CategoryIdInvalid => "分类ID必须是正整数"
    case CategoryNameRequired => "分类名称不能为空"
    case CategoryNameTooLong => "分类名称不能超过100个字符"
    case CategoryDescriptionType => "分类描述必须是字符串"
    case PageInvalid => "页码必须是大于0的整数"
    case LimitInvalid => "每页数量必须是1-100之间的整数"
    case IdInvalid => "ID必须是正整数"
    case NoFile => "没有上传文件"
    case FileTooLarge => "文件大小不能超过10MB"
    case FileTypeUnsupported => "不支持的文件类型"
  }

  /** Position of an issue in the order the checks are made. */
  function Rank(i: Issue): nat {
    match i
    case UsernameRequired => 0
    case UsernameLength => 1
    case EmailRequired => 2
    case EmailFormat => 3
    case ProductNameRequired => 4
    case ProductNameTooLong => 5
    case ProductDescriptionType => 6
    case PriceInvalid => 7
    case StockInvalid => 8
    case CategoryIdInvalid => 9
    case CategoryNameRequired => 10
    case CategoryNameTooLong => 11
    case CategoryDescriptionType => 12
    case PageInvalid => 13
    case LimitInvalid => 14
    case IdInvalid => 15
    case NoFile => 16
    case FileTooLarge => 17
    case FileTypeUnsupported => 18
  }

  /** Errors appear at most once each, in the order the checks run. */
  predicate InCheckOrder(errors: seq<Issue>) {
    forall i, j | 0 <= i < j < |errors| :: Rank(errors[i]) < Rank(errors[j])
  }

  datatype Validation = Validation(isValid: bool, errors: seq<Issue>)

  /** `validatePagination` also hands back the parsed numbers; `None` is `NaN`. */
  datatype PaginationCheck = PaginationCheck(isValid: bool, errors: seq<Issue>, page: Option<int>, limit: Option<int>)

  /** `validateId` also hands back the parsed id when it is valid. */
  datatype IdCheck = IdCheck(isValid: bool, errors: seq<Issue>, numericId: Option<int>)

  // ---------------------------------------------------------------------------
  // Field rules, stated as plain predicates
  // ---------------------------------------------------------------------------

  /** A string with at least one non-white-space character. */
  predicate IsNonBlankString(v: JsValue) {
    v.Str? && !AllWhitespace(v.s)
  }

  /** A finite number strictly greater than zero. */
  predicate IsPositiveNumber(v: JsValue) {
    v.Num? && v.x > 0.0
  }

  /** What the stock check lets through: absent, NaN, or a number at least zero. */
  predicate StockAccepted(v: JsValue) {
    v.Undefined? || v.NaN? || (v.Num? && v.x >= 0.0)
  }

  /** What the category id check lets through: absent, null, NaN, or a number above zero. */
  predicate CategoryIdAccepted(v: JsValue) {
    v.Undefined? || v.Null? || v.NaN? || (v.Num? && v.x > 0.0)
  }

  /** A description is rejected only when it is truthy and not a string. */
  predicate DescriptionAccepted(v: JsValue) {
    !Truthy(v) || v.Str?
  }

  /** The blank-string test the validator writes out,
      `!v || typeof v !== 'string' || v.trim().length === 0`: true exactly when `v`
      is not a string with a non-white-space character. */
  method IsBlank(v: JsValue) returns (blank: bool)
    ensures blank <==> !IsNonBlankString(v)
  {
    blank := !Truthy(v) || TypeOf(v) != StringType || |Trim(v.s)| == 0;
    if v.Str? && v.s == [] {
      assert AllWhitespace(v.s);
    }
  }

  // ---------------------------------------------------------------------------
  // E-mail shape
  // ---------------------------------------------------------------------------

  /** A character of the class `[^\s@]`. */
  predicate EmailChar(c: char) {
    !IsWhitespace(c) && c != '@'
  }

  predicate AllEmailChars(s: string) {
    forall k | 0 <= k < |s| :: EmailChar(s[k])
  }

  /** `s` splits as `[^\s@]+ @ [^\s@]+ \. [^\s@]+` with the `@` at `at` and the
      literal dot at `dot`. */
  predicate EmailSplit(s: string, at: int, dot: int) {
    && 0 < at && at + 1 < dot && dot + 1 < |s|
    && s[at] == '@' && s[dot] == '.'
    && forall k | 0 <= k < |s| && k != at :: EmailChar(s[k])
  }

  /** The language of the regular expression `^[^\s@]+@[^\s@]+\.[^\s@]+$`. */
  ghost predicate MatchesEmailPattern(s: string) {
    exists at, dot :: EmailSplit(s, at, dot)
  }

  /** Index of the first occurrence of `c` in `s`. */
  function IndexOf(s: string, c: char): (r: Option<nat>)
    ensures r.Some? ==> r.value < |s| && s[r.value] == c
    ensures forall k | 0 <= k < |s| && (r.None? || k < r.value) :: s[k] != c
  {
    if s == [] then None
    else if s[0] == c then Some(0)
    else match IndexOf(s[1..], c)
      case None => None
      case Some(k) => Some(k + 1)
  }

  /** `isValidEmail`, computed by splitting at the first `@`: a non-empty local
      part and a domain, neither with white space or another `@`, and a dot in
      the domain with at least one character on each side. */
  function IsValidEmail(s: string): bool {
    match IndexOf(s, '@')
    case None => false
    case Some(at) =>
      var local, domain := s[..at], s[at + 1..];
      && |local| > 0 && AllEmailChars(local) && AllEmailChars(domain)
      && exists j | 1 <= j < |domain| - 1 :: domain[j] == '.'
  }

  /** The split-at-the-first-`@` check accepts exactly the regular expression's language. */
  lemma EmailCheckMatchesPattern(s: string)
    ensures IsValidEmail(s) <==> MatchesEmailPattern(s)
  {
    if IsValidEmail(s) {
      var at := IndexOf(s, '@').value;
      var domain := s[at + 1..];
      var j :| 1 <= j < |domain| - 1 && domain[j] == '.';
      forall k | 0 <= k < |s| && k != at ensures EmailChar(s[k]) {
        if k < at { assert s[..at][k] == s[k]; } else { assert domain[k - at - 1] == s[k]; }
      }
      assert EmailSplit(s, at, at + 1 + j);
    }
    if MatchesEmailPattern(s) {
      var at, dot :| EmailSplit(s, at, dot);
      assert IndexOf(s, '@') == Some(at) by {
        var r := IndexOf(s, '@');
        assert s[at] == '@';
        assert r.Some?;
        assert r.value != at ==> EmailChar(s[r.value]);
      }
      var domain := s[at + 1..];
      assert domain[dot - at - 1] == '.';
      assert AllEmailChars(s[..at]) by {
        forall k | 0 <= k < at ensures EmailChar(s[..at][k]) { assert s[..at][k] == s[k]; }
      }
      assert AllEmailChars(domain) by {
        forall k | 0 <= k < |domain| ensures EmailChar(domain[k]) { assert domain[k] == s[at + 1 + k]; }
      }
    }
  }

  // ---------------------------------------------------------------------------
  // Checks and the errors they push
  // ---------------------------------------------------------------------------

  /** One check a validator makes: whether it failed, and the error it pushes then. */
  datatype Check = Check(failed: bool, issue: Issue)

  /** The errors a run of `checks` pushes: the issue of every failed check, in order. */
  function Collect(checks: seq<Check>): (errors: seq<Issue>)
    ensures |errors| <= |checks|
  {
    if checks == [] then []
    else
      var last := checks[|checks| - 1];
      Collect(checks[..|checks| - 1]) + (if last.failed then [last.issue] else [])
  }

  /** Only issues the checks name are ever pushed. */
  lemma CollectWithin(checks: seq<Check>, issues: set<Issue>)
    requires forall k | 0 <= k < |checks| :: checks[k].issue in issues
    ensures forall i | 0 <= i < |Collect(checks)| :: Collect(checks)[i] in issues
  {
    forall i | 0 <= i < |Collect(checks)| ensures Collect(checks)[i] in issues {
      CollectMember(checks, Collect(checks)[i]);
    }
  }

  /** The checks are listed in the order they are made. */
  predicate RanksIncrease(checks: seq<Check>) {
    forall i, j | 0 <= i < j < |checks| :: Rank(checks[i].issue) < Rank(checks[j].issue)
  }

  /** An issue is among the errors exactly when some check naming it failed. */
  lemma {:induction false} CollectMember(checks: seq<Check>, x: Issue)
    ensures x in Collect(checks) <==> exists k | 0 <= k < |checks| :: checks[k] == Check(true, x)
  {
    if checks != [] {
      var init := checks[..|checks| - 1];
      CollectMember(init, x);
      if exists k | 0 <= k < |init| :: init[k] == Check(true, x) {
        var k :| 0 <= k < |init| && init[k] == Check(true, x);
        assert checks[k] == init[k];
      }
      if exists k | 0 <= k < |checks| :: checks[k] == Check(true, x) {
        var k :| 0 <= k < |checks| && checks[k] == Check(true, x);
        if k < |init| {
          assert init[k] == checks[k];
        }
      }
    }
  }

  /** Checks made in order push their errors in order. */
  lemma {:induction false} CollectInOrder(checks: seq<Check>)
    requires RanksIncrease(checks)
    ensures InCheckOrder(Collect(checks))
  {
    if checks != [] {
      var init := checks[..|checks| - 1];
      var last := checks[|checks| - 1];
      assert RanksIncrease(init);
      CollectInOrder(init);
      var errors := Collect(init);
      forall i | 0 <= i < |errors| ensures Rank(errors[i]) < Rank(last.issue) {
        CollectMember(init, errors[i]);
        var k :| 0 <= k < |init| && init[k] == Check(true, errors[i]);
        assert checks[k] == init[k];
      }
    }
  }

  /** When the checks name distinct issues, a check's issue is among the errors
      exactly when that check failed. */
  lemma CollectExact(checks: seq<Check>, k: nat)
    requires RanksIncrease(checks) && k < |checks|
    ensures checks[k].issue in Collect(checks) <==> checks[k].failed
  {
    CollectMember(checks, checks[k].issue);
    if checks[k].issue in Collect(checks) {
      var j :| 0 <= j < |checks| && checks[j] == Check(true, checks[k].issue);
      assert Rank(checks[j].issue) == Rank(checks[k].issue);
    }
  }

  /** `if (failed) errors.push(issue)`, made as check `n` of `checks`: before it the
      errors are those pushed by the first `n` checks, after it by the first `n + 1`. */
  method PushIf(errors: seq<Issue>, failed: bool, issue: Issue, ghost checks: seq<Check>, ghost n: nat)
    returns (pushed: seq<Issue>)
    requires n < |checks| && checks[n] == Check(failed, issue)
    requires errors == Collect(checks[..n])
    ensures pushed == Collect(checks[..n + 1])
  {
    assert checks[..n + 1][..n] == checks[..n];
    pushed := errors;
    if failed {
      pushed := pushed + [issue];
    }
  }

  // ---------------------------------------------------------------------------
  // The validators
  // ---------------------------------------------------------------------------

  /** The checks `validateUser` makes, in order, each as the validator writes it;
      the length check is the `else` branch of the blank check. */
  function UserChecks(data: JsObject): seq<Check> {
    var username := Field(data, "username");
    var email := Field(data, "email");
    [ Check(!IsNonBlankString(username), UsernameRequired),
      Check(IsNonBlankString(username)
              && (Utf16Length(username.s) < 3 || Utf16Length(username.s) > 50), UsernameLength),
      Check(!IsNonBlankString(email), EmailRequired),
      Check(IsNonBlankString(email) && !IsValidEmail(email.s), EmailFormat) ]
  }

  /** `validateUser`: a username error (missing or blank, else wrong length), then an
      e-mail error (missing or blank, else malformed). */
  method ValidateUser(data: JsObject) returns (r: Validation)
    ensures r.isValid <==> r.errors == []
    ensures r.errors == Collect(UserChecks(data))
  {
    ghost var checks := UserChecks(data);
    var errors: seq<Issue> := [];
    var username := Field(data, "username");
    var blank := IsBlank(username);
    errors := PushIf(errors, blank, UsernameRequired, checks, 0);
    errors := PushIf(errors, !blank && (Utf16Length(username.s) < 3 || Utf16Length(username.s) > 50),
      UsernameLength, checks, 1);
    var email := Field(data, "email");
    blank := IsBlank(email);
    errors := PushIf(errors, blank, EmailRequired, checks, 2);
    errors := PushIf(errors, !blank && !IsValidEmail(email.s), EmailFormat, checks, 3);
    assert |checks| == 4 && checks[..|checks|] == checks;
    r := Validation(|errors| == 0, errors);
  }

  /** What the user checks promise: each error at most once and in check order, only
      user errors, and each exactly when its rule is broken; a malformed e-mail is
      one outside the language of `^[^\s@]+@[^\s@]+\.[^\s@]+$`. */
  lemma UserChecksMeaning(data: JsObject)
    ensures InCheckOrder(Collect(UserChecks(data)))
    ensures forall i | 0 <= i < |Collect(UserChecks(data))| ::
      Collect(UserChecks(data))[i] in {UsernameRequired, UsernameLength, EmailRequired, EmailFormat}
    ensures UsernameRequired in Collect(UserChecks(data)) <==> !IsNonBlankString(Field(data, "username"))
    ensures UsernameLength in Collect(UserChecks(data)) <==>
      IsNonBlankString(Field(data, "username")) && !(3 <= Utf16Length(Field(data, "username").s) <= 50)
    ensures EmailRequired in Collect(UserChecks(data)) <==> !IsNonBlankString(Field(data, "email"))
    ensures EmailFormat in Collect(UserChecks(data)) <==>
      IsNonBlankString(Field(data, "email")) && !MatchesEmailPattern(Field(data, "email").s)
  {
    var checks := UserChecks(data);
    CollectInOrder(checks);
    CollectExact(checks, 0);
    CollectExact(checks, 1);
    CollectExact(checks, 2);
    CollectExact(checks, 3);
    CollectWithin(checks, {UsernameRequired, UsernameLength, EmailRequired, EmailFormat});
    var email := Field(data, "email");
    if email.Str? { EmailCheckMatchesPattern(email.s); }
  }

  /** The checks `validateProduct` makes, in order, each as the validator writes it. */
  function ProductChecks(data: JsObject): seq<Check> {
    var name := Field(data, "name");
    var description := Field(data, "description");
    var price := Field(data, "price");
    var stock := Field(data, "stock");
    var categoryId := Field(data, "category_id");
    [ Check(!IsNonBlankString(name), ProductNameRequired),
      Check(IsNonBlankString(name) && Utf16Length(name.s) > 200, ProductNameTooLong),
      Check(Truthy(description) && TypeOf(description) != StringType, ProductDescriptionType),
      Check(!Truthy(price) || TypeOf(price) != NumberType || NumberAtMost(price, 0.0), PriceInvalid),
      Check(!stock.Undefined? && (TypeOf(stock) != NumberType || NumberBelow(stock, 0.0)), StockInvalid),
      Check(!categoryId.Undefined? && !categoryId.Null?
              && (TypeOf(categoryId) != NumberType || NumberAtMost(categoryId, 0.0)), CategoryIdInvalid) ]
  }

  /** `validateProduct`: name (required, at most 200 code units), description (a
      string when truthy), price (a number above zero), stock (when present a
      number not below zero) and category id (when present and not null a number
      above zero), checked in that order. */
  method ValidateProduct(data: JsObject) returns (r: Validation)
    ensures r.isValid <==> r.errors == []
    ensures r.errors == Collect(ProductChecks(data))
  {
    ghost var checks := ProductChecks(data);
    var errors: seq<Issue> := [];
    var name := Field(data, "name");
    var blank := IsBlank(name);
    errors := PushIf(errors, blank, ProductNameRequired, checks, 0);
    errors := PushIf(errors, !blank && Utf16Length(name.s) > 200, ProductNameTooLong, checks, 1);
    var description := Field(data, "description");
    errors := PushIf(errors, Truthy(description) && TypeOf(description) != StringType,
      ProductDescriptionType, checks, 2);
    var price := Field(data, "price");
    errors := PushIf(errors, !Truthy(price) || TypeOf(price) != NumberType || NumberAtMost(price, 0.0),
      PriceInvalid, checks, 3);
    var stock := Field(data, "stock");
    errors := PushIf(errors, !stock.Undefined? && (TypeOf(stock) != NumberType || NumberBelow(stock, 0.0)),
      StockInvalid, checks, 4);
    var categoryId := Field(data, "category_id");
    errors := PushIf(errors, !categoryId.Undefined? && !categoryId.Null?
      && (TypeOf(categoryId) != NumberType || NumberAtMost(categoryId, 0.0)), CategoryIdInvalid, checks, 5);
    assert |checks| == 6 && checks[..|checks|] == checks;
    r := Validation(|errors| == 0, errors);
  }

  /** The product checks report each error at most once, in check order, and only
      product errors. */
  lemma ProductChecksOrder(data: JsObject)
    ensures InCheckOrder(Collect(ProductChecks(data)))
    ensures forall i | 0 <= i < |Collect(ProductChecks(data))| ::
      Collect(ProductChecks(data))[i] in {ProductNameRequired, ProductNameTooLong, ProductDescriptionType,
                                          PriceInvalid, StockInvalid, CategoryIdInvalid}
  {
    var checks := ProductChecks(data);
    CollectInOrder(checks);
    CollectWithin(checks, {ProductNameRequired, ProductNameTooLong, ProductDescriptionType,
                                          PriceInvalid, StockInvalid, CategoryIdInvalid});
  }

  /** Each product error is reported exactly when its rule is broken. */
  lemma ProductChecksMeaning(data: JsObject)
    ensures ProductNameRequired in Collect(ProductChecks(data)) <==> !IsNonBlankString(Field(data, "name"))
    ensures ProductNameTooLong in Collect(ProductChecks(data)) <==>
      IsNonBlankString(Field(data, "name")) && Utf16Length(Field(data, "name").s) > 200
    ensures ProductDescriptionType in Collect(ProductChecks(data)) <==>
      !DescriptionAccepted(Field(data, "description"))
    ensures PriceInvalid in Collect(ProductChecks(data)) <==> !IsPositiveNumber(Field(data, "price"))
    ensures StockInvalid in Collect(ProductChecks(data)) <==> !StockAccepted(Field(data, "stock"))
    ensures CategoryIdInvalid in Collect(ProductChecks(data)) <==>
      !CategoryIdAccepted(Field(data, "category_id"))
  {
    var checks := ProductChecks(data);
    CollectExact(checks, 0);
    CollectExact(checks, 1);
    CollectExact(checks, 2);
    CollectExact(checks, 3);
    CollectExact(checks, 4);
    CollectExact(checks, 5);
  }

  /** The checks `validateCategory` makes, in order, each as the validator writes it. */
  function CategoryChecks(data: JsObject): seq<Check> {
    var name := Field(data, "name");
    var description := Field(data, "description");
    [ Check(!IsNonBlankString(name), CategoryNameRequired),
      Check(IsNonBlankString(name) && Utf16Length(name.s) > 100, CategoryNameTooLong),
      Check(Truthy(description) && TypeOf(description) != StringType, CategoryDescriptionType) ]
  }

  /** `validateCategory`: name (required, at most 100 code units), then description
      (a string when truthy). */
  method ValidateCategory(data: JsObject) returns (r: Validation)
    ensures r.isValid <==> r.errors == []
    ensures r.errors == Collect(CategoryChecks(data))
  {
    ghost var checks := CategoryChecks(data);
    var errors: seq<Issue> := [];
    var name := Field(data, "name");
    var blank := IsBlank(name);
    errors := PushIf(errors, blank, CategoryNameRequired, checks, 0);
    errors := PushIf(errors, !blank && Utf16Length(name.s) > 100, CategoryNameTooLong, checks, 1);
    var description := Field(data, "description");
    errors := PushIf(errors, Truthy(description) && TypeOf(description) != StringType,
      CategoryDescriptionType, checks, 2);
    assert |checks| == 3 && checks[..|checks|] == checks;
    r := Validation(|errors| == 0, errors);
  }

  /** What the category checks promise: each error at most once and in check order,
      only category errors, and each exactly when its rule is broken. */
  lemma CategoryChecksMeaning(data: JsObject)
    ensures InCheckOrder(Collect(CategoryChecks(data)))
    ensures forall i | 0 <= i < |Collect(CategoryChecks(data))| ::
      Collect(CategoryChecks(data))[i] in {CategoryNameRequired, CategoryNameTooLong, CategoryDescriptionType}
    ensures CategoryNameRequired in Collect(CategoryChecks(data)) <==> !IsNonBlankString(Field(data, "name"))
    ensures CategoryNameTooLong in Collect(CategoryChecks(data)) <==>
      IsNonBlankString(Field(data, "name")) && Utf16Length(Field(data, "name").s) > 100
    ensures CategoryDescriptionType in Collect(CategoryChecks(data)) <==>
      !DescriptionAccepted(Field(data, "description"))
  {
    var checks := CategoryChecks(data);
    CollectInOrder(checks);
    CollectExact(checks, 0);
    CollectExact(checks, 1);
    CollectExact(checks, 2);
    CollectWithin(checks, {CategoryNameRequired, CategoryNameTooLong, CategoryDescriptionType});
  }

  /** `searchParams.get(name) || fallback`: an absent or empty parameter gives the fallback. */
  function ParamOr(param: Option<string>, fallback: string): string {
    if param.Some? && param.value != "" then param.value else fallback
  }

  /** The checks `validatePagination` makes on the parsed page and limit; `None` is `NaN`,
      which fails every comparison. */
  function PaginationChecks(page: Option<int>, limit: Option<int>): seq<Check> {
    [ Check(page.None? || page.value < 1, PageInvalid),
      Check(limit.None? || limit.value < 1 || limit.value > 100, LimitInvalid) ]
  }

  /** `validatePagination`: page defaults to 1 and limit to 10; page must parse to
      at least 1 and limit to 1..100. The parsed values come back even when invalid. */
  method ValidatePagination(pageParam: Option<string>, limitParam: Option<string>) returns (r: PaginationCheck)
    ensures r.isValid <==> r.errors == []
    ensures r.page == ParseInt(ParamOr(pageParam, "1"))
    ensures r.limit == ParseInt(ParamOr(limitParam, "10"))
    ensures r.errors == Collect(PaginationChecks(r.page, r.limit))
  {
    var page := ParseInt(ParamOr(pageParam, "1"));
    var limit := ParseInt(ParamOr(limitParam, "10"));
    ghost var checks := PaginationChecks(page, limit);
    var errors: seq<Issue> := [];
    errors := PushIf(errors, page.None? || page.value < 1, PageInvalid, checks, 0);
    errors := PushIf(errors, limit.None? || limit.value < 1 || limit.value > 100, LimitInvalid, checks, 1);
    assert |checks| == 2 && checks[..|checks|] == checks;
    r := PaginationCheck(|errors| == 0, errors, page, limit);
  }

  /** What the pagination checks promise: errors in check order, only pagination
      errors, the page error exactly when the page is not a number of at least 1
      and the limit error exactly when the limit is not a number in 1..100. */
  lemma PaginationChecksMeaning(page: Option<int>, limit: Option<int>)
    ensures InCheckOrder(Collect(PaginationChecks(page, limit)))
    ensures forall i | 0 <= i < |Collect(PaginationChecks(page, limit))| ::
      Collect(PaginationChecks(page, limit))[i] in {PageInvalid, LimitInvalid}
    ensures PageInvalid in Collect(PaginationChecks(page, limit)) <==> !(page.Some? && page.value >= 1)
    ensures LimitInvalid in Collect(PaginationChecks(page, limit)) <==>
      !(limit.Some? && 1 <= limit.value <= 100)
  {
    var checks := PaginationChecks(page, limit);
    CollectInOrder(checks);
    CollectExact(checks, 0);
    CollectExact(checks, 1);
    CollectWithin(checks, {PageInvalid, LimitInvalid});
  }

  /** An absent or empty page parameter reads as page 1 and an absent or empty limit
      as 10; the decimal text of any integer reads back as that integer. */
  lemma PaginationDefaults(pageParam: Option<string>, limitParam: Option<string>)
    ensures (pageParam.None? || pageParam == Some("")) ==> ParseInt(ParamOr(pageParam, "1")) == Some(1)
    ensures (limitParam.None? || limitParam == Some("")) ==> ParseInt(ParamOr(limitParam, "10")) == Some(10)
    ensures forall n :: pageParam == Some(IntToDecimal(n)) ==> ParseInt(ParamOr(pageParam, "1")) == Some(n)
    ensures forall n :: limitParam == Some(IntToDecimal(n)) ==> ParseInt(ParamOr(limitParam, "10")) == Some(n)
  {
    ParseIntDecimal(1);
    ParseIntDecimal(10);
    assert IntToDecimal(1) == "1" && IntToDecimal(10) == "10";
    forall n ensures ParseInt(IntToDecimal(n)) == Some(n) { ParseIntDecimal(n); }
  }

  /** `validateId`: the id must parse to a positive integer, which is then returned. */
  method ValidateId(id: string) returns (r: IdCheck)
    ensures r.isValid <==> r.errors == []
    ensures r.isValid <==> r.numericId.Some?
    ensures r.isValid <==> (ParseInt(id).Some? && ParseInt(id).value > 0)
    ensures r.numericId.Some? ==> r.numericId == ParseInt(id) && r.numericId.value > 0
    ensures !r.isValid ==> r.errors == [IdInvalid]
    ensures forall n :: n > 0 && id == IntToDecimal(n) ==> r.numericId == Some(n)
  {
    var errors: seq<Issue> := [];
    var numericId := ParseInt(id);
    if numericId.None? || numericId.value <= 0 {
      errors := errors + [IdInvalid];
    }
    forall n ensures ParseInt(IntToDecimal(n)) == Some(n) { ParseIntDecimal(n); }
    r := IdCheck(|errors| == 0, errors, if |errors| == 0 then numericId else None);
  }

  /** The part of a browser `File` the upload check reads. */
  datatype UploadedFile = UploadedFile(size: nat, mimeType: string)

  /** 10 MB. */
  const MaxUploadSize: nat := 10 * 1024 * 1024

  const AllowedMimeTypes: seq<string> := [
    "image/jpeg",
    "image/png",
    "image/gif",
    "application/pdf",
    "text/plain",
    "application/msword",
    "application/vnd.openxmlformats-officedocument.wordprocessingml.document"
  ]

  /** `validateFileUpload`: no file is the only error reported for a missing file;
      otherwise size above 10 MB and a type outside the allow-list are reported
      independently, size first. */
  method ValidateFileUpload(file: Option<UploadedFile>) returns (r: Validation)
    ensures r.isValid <==> r.errors == []
    ensures file.None? ==> r.errors == [NoFile]
    ensures file.Some? ==> InCheckOrder(r.errors)
    ensures file.Some? ==> forall i | 0 <= i < |r.errors| :: r.errors[i] in {FileTooLarge, FileTypeUnsupported}
    ensures file.Some? ==> (FileTooLarge in r.errors <==> file.value.size > 10485760)
    ensures file.Some? ==> (FileTypeUnsupported in r.errors <==> file.value.mimeType !in AllowedMimeTypes)
  {
    var errors: seq<Issue> := [];
    if file.None? {
      errors := errors + [NoFile];
      return Validation(false, errors);
    }
    if file.value.size > MaxUploadSize {
      errors := errors + [FileTooLarge];
    }
    if file.value.mimeType !in AllowedMimeTypes {
      errors := errors + [FileTypeUnsupported];
    }
    r := Validation(|errors| == 0, errors);
  }

  // ---------------------------------------------------------------------------
  // Sanitising
  // ---------------------------------------------------------------------------

  predicate IsAngleBracket(c: char) { c == '<' || c == '>' }

  /** `s.replace(/[<>]/g, '')`: every other character stays, as often as it
      occurs, and the result is shorter by the number of brackets. */
  function RemoveAngleBrackets(s: string): (r: string)
    ensures |r| == |s| - Occurrences(s, '<') - Occurrences(s, '>')
    ensures forall c :: c in r <==> c in s && !IsAngleBracket(c)
    ensures forall c | !IsAngleBracket(c) :: Occurrences(r, c) == Occurrences(s, c)
  {
    if s == [] then []
    else
      var rest := RemoveAngleBrackets(s[1..]);
      assert s == [s[0]] + s[1..];
      if IsAngleBracket(s[0]) then rest
      else
        var r := [s[0]] + rest;
        assert r[1..] == rest;
        r
  }

  /** Removal works character by character: a bracket goes, any other
      character stays. */
  lemma RemoveAngleBracketsChar(c: char)
    ensures RemoveAngleBrackets([c]) == if IsAngleBracket(c) then [] else [c]
  {
    assert [c][1..] == [];
  }

  /** Removal from joined text is the removals joined, so the characters that
      stay keep their order. With `RemoveAngleBracketsChar` this fixes the
      result for every input. */
  lemma {:induction false} RemoveAngleBracketsConcat(a: string, b: string)
    ensures RemoveAngleBrackets(a + b) == RemoveAngleBrackets(a) + RemoveAngleBrackets(b)
  {
    if a == [] {
      assert a + b == b;
    } else {
      assert (a + b)[0] == a[0];
      assert (a + b)[1..] == a[1..] + b;
      RemoveAngleBracketsConcat(a[1..], b);
    }
  }

  /** `sanitizeString`: trim, then drop every `<` and `>`. Every other character
      of the trimmed input stays, as often as it occurs there. */
  function SanitizeString(input: string): (r: string)
    ensures '<' !in r && '>' !in r
    ensures forall c :: c in r <==> c in Trim(input) && c != '<' && c != '>'
    ensures forall c | !IsAngleBracket(c) :: Occurrences(r, c) == Occurrences(Trim(input), c)
    ensures |r| == |Trim(input)| - Occurrences(Trim(input), '<') - Occurrences(Trim(input), '>')
  {
    RemoveAngleBrackets(Trim(input))
  }

  /** Removing brackets after trimming can expose white space, so sanitising twice
      can differ from sanitising once. */
  lemma SanitizeNotIdempotent()
    ensures SanitizeString("< a") == " a"
    ensures SanitizeString(SanitizeString("< a")) == "a"
  {
    assert TrimStart("< a") == "< a";
    assert TrimEnd("< a") == "< a";
    assert RemoveAngleBrackets("< a") == " a" by {
      assert "< a"[1..] == " a";
      assert " a"[1..] == "a";
      assert "a"[1..] == "";
    }
    assert TrimStart(" a") == "a" by { assert " a"[1..] == "a"; }
    assert TrimEnd("a") == "a";
    assert RemoveAngleBrackets("a") == "a" by { assert "a"[1..] == ""; }
  }

  /** Removing brackets from text that has none changes nothing. */
  lemma {:induction false} RemoveAngleBracketsNone(s: string)
    requires '<' !in s && '>' !in s
    ensures RemoveAngleBrackets(s) == s
  {
    if s != [] {
      assert s[0] in s;
      assert forall c | c in s[1..] :: c in s;
      RemoveAngleBracketsNone(s[1..]);
      assert s == [s[0]] + s[1..];
    }
  }

  /** Trimming text that is already trimmed changes nothing. */
  lemma TrimTrimmed(s: string)
    ensures Trim(Trim(s)) == Trim(s)
  {
    var r := Trim(s);
    if r != [] {
      assert TrimStart(r) == r;
      assert TrimEnd(r) == r;
    }
  }

  /** Sanitising as evidently intended: drop every `<` and `>` first and trim
      afterwards, so the result never starts or ends with white space. */
  function SanitizeStringTrimmed(input: string): (r: string)
    ensures '<' !in r && '>' !in r
    ensures forall c :: c in r ==> c in input
    ensures r == [] || (!IsWhitespace(r[0]) && !IsWhitespace(r[|r| - 1]))
  {
    var cleaned := RemoveAngleBrackets(input);
    var r := Trim(cleaned);
    assert forall c :: c in r ==> c in cleaned by {
      var i, j :| TrimmedAt(cleaned, i, j, r);
      forall c | c in r ensures c in cleaned {
        var k :| 0 <= k < |r| && r[k] == c;
        assert cleaned[i + k] == c;
      }
    }
    r
  }

  /** Sanitising the intended way twice is sanitising once. */
  lemma SanitizeTrimmedIdempotent(input: string)
    ensures SanitizeStringTrimmed(SanitizeStringTrimmed(input)) == SanitizeStringTrimmed(input)
  {
    var r := SanitizeStringTrimmed(input);
    RemoveAngleBracketsNone(r);
    TrimTrimmed(RemoveAngleBrackets(input));
  }

  /** The intended order trims the text the as-written order leaves as " a". */
  lemma SanitizeTrimmedExample()
    ensures SanitizeStringTrimmed("< a") == "a"
  {
    assert RemoveAngleBrackets("< a") == " a" by {
      assert "< a"[1..] == " a";
      assert " a"[1..] == "a";
      assert "a"[1..] == "";
    }
    assert TrimStart(" a") == "a" by { assert " a"[1..] == "a"; }
    assert TrimEnd("a") == "a";
  }
}
