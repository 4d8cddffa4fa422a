/**
  The logic of the admin items page (pages/admin/items/ItemsPage.tsx) that is not rendering:
  where item images are served from, which image paths are shown and as what URL, and what the
  form's submit handler sends.
*/
module ItemsPage {
  import opened Js
  import opened Validation
  import opened ItemService

  // ---------------------------------------------------------------------------
  // apiBase, apiOrigin (lines 25-26)
  // ---------------------------------------------------------------------------

  const DefaultApiBase := "http://localhost:5000/api"

  /** `env.VITE_API_URL || 'http://localhost:5000/api'`; an unset variable is "". */
  function ApiBase(viteApiUrl: string): (base: string)
    ensures base != ""
    ensures viteApiUrl != "" ==> base == viteApiUrl
    ensures viteApiUrl == "" ==> base == DefaultApiBase
  {
    if viteApiUrl != "" then viteApiUrl else DefaultApiBase
  }

  predicate EndsWith(s: string, suffix: string) {
    |suffix| <= |s| && s[|s| - |suffix|..] == suffix
  }

  /**
    `base.replace(/\/api\/?$/, '')`: one trailing "/api" or "/api/" is cut off; anything else is
    kept as it is.
  */
  function StripApiSuffix(base: string): (origin: string)
    ensures EndsWith(base, "/api") ==> base == origin + "/api"
    ensures EndsWith(base, "/api/") ==> base == origin + "/api/"
    ensures !EndsWith(base, "/api") && !EndsWith(base, "/api/") ==> origin == base
  {
    assert EndsWith(base, "/api") ==> base[|base| - 1] == 'i';
    assert EndsWith(base, "/api/") ==> base[|base| - 1] == '/';
    if EndsWith(base, "/api") then base[..|base| - 4]
    else if EndsWith(base, "/api/") then base[..|base| - 5]
    else base
  }

  /** The origin the back end serves `/uploads` from. */
  function ApiOrigin(viteApiUrl: string): (origin: string)
    ensures origin <= ApiBase(viteApiUrl)
    ensures ApiBase(viteApiUrl) == origin + "/api" || ApiBase(viteApiUrl) == origin + "/api/" ||
            ApiBase(viteApiUrl) == origin
  {
    StripApiSuffix(ApiBase(viteApiUrl))
  }

  /** Without a configured URL, images come from the local development server. */
  lemma DefaultApiOrigin()
    ensures ApiOrigin("") == "http://localhost:5000"
  {
    assert EndsWith(DefaultApiBase, "/api");
  }

  /** The cut is made once: a base ending in "/api/api" keeps one "/api". */
  lemma StripApiSuffixOnce(host: string)
    ensures StripApiSuffix(host + "/api/api") == host + "/api"
  {
    var base := host + "/api/api";
    assert base[|base| - 4..] == "/api";
    assert base == host + "/api" + "/api";
  }

  // ---------------------------------------------------------------------------
  // isValidImagePath, resolveImageUrl (lines 27-42)
  // ---------------------------------------------------------------------------

  /** s begins with prefix, ignoring the case of ASCII letters (the `i` flag). */
  predicate StartsWithIgnoreCase(s: string, prefix: string) {
    |prefix| <= |s| && forall i :: 0 <= i < |prefix| ==> UpperChar(s[i]) == UpperChar(prefix[i])
  }

  /** The language of `/^https?:\/\//i`. */
  predicate HasHttpScheme(path: string) {
    StartsWithIgnoreCase(path, "http://") || StartsWithIgnoreCase(path, "https://")
  }

  /** A case-blind prefix test is a plain prefix test on the upper-cased texts. */
  lemma StartsWithIgnoreCaseUpper(s: string, prefix: string)
    ensures StartsWithIgnoreCase(s, prefix) <==> ToUpper(prefix) <= ToUpper(s)
  {
  }

  /** `/^https?:\/\//i.test(path)`, decided on the upper-cased text. */
  function MatchesHttpScheme(path: string): (ok: bool)
    ensures ok <==> HasHttpScheme(path)
  {
    StartsWithIgnoreCaseUpper(path, "http://");
    StartsWithIgnoreCaseUpper(path, "https://");
    assert ToUpper("http://") == "HTTP://";
    assert ToUpper("https://") == "HTTPS://";
    var upper := ToUpper(path);
    "HTTP://" <= upper || "HTTPS://" <= upper
  }

  /**
    `isValidImagePath`: a non-empty path without '<' or '>' that is an http(s) URL or points
    into the uploads directory.
  */
  function IsValidImagePath(path: string): (ok: bool)
    ensures ok <==> path != "" && '<' !in path && '>' !in path &&
                    (HasHttpScheme(path) || "/uploads/" <= path || "uploads/" <= path)
  {
    if path == "" then false
    else if '<' in path || '>' in path then false
    else MatchesHttpScheme(path) || "/uploads/" <= path || "uploads/" <= path
  }

  /**
    `try { path = decodeURIComponent(path) } catch {}`: `decode` stands for
    `decodeURIComponent`, with `None` for a malformed escape, which leaves the path as it is.
  */
  function DecodeOrKeep(decode: string -> Option<string>, path: string): (shown: string)
    ensures decode(path).Some? ==> shown == decode(path).value
    ensures decode(path).None? ==> shown == path
  {
    match decode(path)
    case Some(decoded) => decoded
    case None => path
  }

  /** The file name of an upload path written either way. */
  function UploadName(p: string): (name: string)
    requires "uploads/" <= p || "/uploads/" <= p
    ensures p == "uploads/" + name || p == "/uploads/" + name
  {
    if "uploads/" <= p then p[8..] else p[9..]
  }

  /**
    The last step of `resolveImageUrl`: the missing leading '/' is added to the upload path,
    which is then appended to the origin (with a '/' between them if it still lacked one).
  */
  function UploadUrl(apiOrigin: string, p: string): (url: string)
    requires "uploads/" <= p || "/uploads/" <= p
    ensures url == apiOrigin + "/uploads/" + UploadName(p)
  {
    var normalized := if "uploads/" <= p then "/" + p else p;
    assert normalized == "/uploads/" + UploadName(p);
    apiOrigin + (if "/" <= normalized then "" else "/") + normalized
  }

  /**
    `resolveImageUrl`: nothing for an empty or rejected path, an http(s) URL unchanged, and an
    upload path ("uploads/name" or "/uploads/name") as `apiOrigin` + "/uploads/name".
  */
  function ResolveImageUrl(apiOrigin: string, decode: string -> Option<string>, path: string): (url: string)
    ensures path == "" ==> url == ""
    ensures path != "" ==>
              var p := DecodeOrKeep(decode, path);
              (url == "" <==> !IsValidImagePath(p)) &&
              (IsValidImagePath(p) && HasHttpScheme(p) ==> url == p) &&
              (IsValidImagePath(p) && !HasHttpScheme(p) ==> url == apiOrigin + "/uploads/" + UploadName(p))
  {
    if path == "" then ""
    else
      var p := DecodeOrKeep(decode, path);
      if !IsValidImagePath(p) then ""
      else if MatchesHttpScheme(p) then p
      else UploadUrl(apiOrigin, p)
  }

  /** An upload path free of '<' and '>' resolves to the origin's uploads. */
  lemma UploadPathResolves(apiOrigin: string, decode: string -> Option<string>, p: string, name: string)
    requires p == "uploads/" + name || p == "/uploads/" + name
    requires '<' !in name && '>' !in name
    requires DecodeOrKeep(decode, p) == p
    ensures ResolveImageUrl(apiOrigin, decode, p) == apiOrigin + "/uploads/" + name
  {
    var off := |p| - |name|;
    assert p[off..] == name;
    assert !HasHttpScheme(p) by { assert UpperChar(p[0]) != UpperChar("http://"[0]); }
    forall i | 0 <= i < |p| ensures p[i] != '<' && p[i] != '>' {
      if i >= off { assert p[i] == name[i - off]; }
    }
    assert IsValidImagePath(p);
    if p[0] == '/' {
      assert !("uploads/" <= p);
    }
    assert UploadName(p) == name;
  }

  /**
    Both spellings of an upload path resolve to the same URL, although the item validator only
    accepts the one with the leading '/'.
  */
  lemma UploadSpellingsAgree(apiOrigin: string, decode: string -> Option<string>, name: string)
    requires '<' !in name && '>' !in name
    requires DecodeOrKeep(decode, "uploads/" + name) == "uploads/" + name
    requires DecodeOrKeep(decode, "/uploads/" + name) == "/uploads/" + name
    ensures ResolveImageUrl(apiOrigin, decode, "uploads/" + name) == apiOrigin + "/uploads/" + name
    ensures ResolveImageUrl(apiOrigin, decode, "/uploads/" + name) == apiOrigin + "/uploads/" + name
    ensures ItemViolates(ItemData("", "", None, "uploads/" + name), InvalidImage)
    ensures !ItemViolates(ItemData("", "", None, "/uploads/" + name), InvalidImage)
  {
    var a, b := "uploads/" + name, "/uploads/" + name;
    UploadPathResolves(apiOrigin, decode, a, name);
    UploadPathResolves(apiOrigin, decode, b, name);
    assert !("http" <= a) by { assert a[0] != "http"[0]; }
    assert !("/" <= a) by { assert a[0] != '/'; }
    assert "/" <= b;
  }

  /**
    Whatever the stored path, the URL put into the page holds no '<' or '>' beyond those of the
    configured origin, and it is empty, an http(s) URL or a file under the origin's uploads.
  */
  lemma ResolvedUrlSafe(apiOrigin: string, decode: string -> Option<string>, path: string)
    requires '<' !in apiOrigin && '>' !in apiOrigin
    ensures var url := ResolveImageUrl(apiOrigin, decode, path);
            '<' !in url && '>' !in url &&
            (url == "" || HasHttpScheme(url) || apiOrigin + "/uploads/" <= url)
  {
    var url := ResolveImageUrl(apiOrigin, decode, path);
    if url != "" {
      var p := DecodeOrKeep(decode, path);
      if !HasHttpScheme(p) {
        var name := UploadName(p);
        assert p == "uploads/" + name || p == "/uploads/" + name;
        assert url == apiOrigin + "/uploads/" + name;
        assert url[..|apiOrigin + "/uploads/"|] == apiOrigin + "/uploads/";
      }
    }
  }

  /** A server path outside the uploads directory passes the item validator but is never shown. */
  lemma ServerPathNotShown(apiOrigin: string, decode: string -> Option<string>, path: string)
    requires "/" <= path && !("/uploads/" <= path)
    requires DecodeOrKeep(decode, path) == path
    ensures !ItemViolates(ItemData("", "", None, path), InvalidImage)
    ensures ResolveImageUrl(apiOrigin, decode, path) == ""
  {
    assert !HasHttpScheme(path) by { assert UpperChar(path[0]) != UpperChar("http://"[0]); }
    assert !("uploads/" <= path) by { assert path[0] != "uploads/"[0]; }
  }

  // ---------------------------------------------------------------------------
  // onSubmit (lines 133-171)
  // ---------------------------------------------------------------------------

  /** The form's state: every field is always present, the price is a number. */
  datatype ItemForm = ItemForm(itemName: string, itemType: string, itemPrice: real, itemImage: string)

  /** The form as the validator sees it. */
  function AsItemData(form: ItemForm): ItemData {
    ItemData(form.itemName, form.itemType, Some(form.itemPrice), form.itemImage)
  }

  /** The request the handler sends: a create, or an update of the item being edited. */
  datatype ItemRequest = CreateItem(payload: ItemForm) | UpdateItem(id: string, payload: ItemForm)

  datatype SubmitOutcome = Blocked(formError: string) | Sent(request: ItemRequest)

  // Each item error message fits on one line (one lemma per message keeps each proof small).
  lemma NameTooShortSingleLine() ensures '\n' !in NameTooShort.Message() {}
  lemma NameTooLongSingleLine() ensures '\n' !in NameTooLong.Message() {}
  lemma InvalidTypeSingleLine() ensures '\n' !in InvalidType.Message() {}
  lemma NegativePriceSingleLine() ensures '\n' !in NegativePrice.Message() {}
  lemma InvalidImageSingleLine() ensures '\n' !in InvalidImage.Message() {}

  lemma ItemMessagesSingleLine()
    ensures forall e: ItemError :: '\n' !in e.Message()
  {
    NameTooShortSingleLine();
    NameTooLongSingleLine();
    InvalidTypeSingleLine();
    NegativePriceSingleLine();
    InvalidImageSingleLine();
    forall e: ItemError ensures '\n' !in e.Message() {
      match e
      case NameTooShort =>
      case NameTooLong =>
      case InvalidType =>
      case NegativePrice =>
      case InvalidImage =>
    }
  }

  /** The message shown for a non-empty error list: one line per failed check. */
  function FormError(errors: seq<ItemError>): (shown: string)
    ensures errors != [] ==> |Split(shown, '\n')| == |errors|
    ensures errors != [] ==>
              forall k :: 0 <= k < |errors| ==> Split(shown, '\n')[k] == errors[k].Message()
  {
    var lines := Messages(errors, (e: ItemError) => e.Message());
    ItemMessagesSingleLine();
    if lines != [] then SplitJoin(lines, '\n'); Join(lines, "\n") else Join(lines, "\n")
  }

  /** Splitting the shown message at line breaks gives exactly the failed checks' messages. */
  lemma FormErrorLines(d: ItemData, errors: seq<ItemError>)
    requires errors != []
    requires forall e :: e in errors <==> ItemViolates(d, e)
    ensures forall line :: line in Split(FormError(errors), '\n') <==>
              exists e :: ItemViolates(d, e) && line == e.Message()
  {
    var lines := Messages(errors, (e: ItemError) => e.Message());
    ItemMessagesSingleLine();
    SplitJoin(lines, '\n');
    forall line ensures line in lines <==> exists e :: ItemViolates(d, e) && line == e.Message() {
      if line in lines {
        var k :| 0 <= k < |lines| && lines[k] == line;
        assert errors[k] in errors;
      }
      if exists e :: ItemViolates(d, e) && line == e.Message() {
        var e :| ItemViolates(d, e) && line == e.Message();
        var k :| 0 <= k < |errors| && errors[k] == e;
        assert lines[k] == line;
      }
    }
  }

  /** The list `validateItemData` returns: every failed check, once, in the order of the checks. */
  predicate ReportsInOrder(d: ItemData, errors: seq<ItemError>) {
    (forall e :: e in errors <==> ItemViolates(d, e)) && InOrder(errors, ItemErrorPosition)
  }

  /** So the message shown for a blocked form is determined: its lines, their order and their number. */
  lemma FormErrorDetermined(d: ItemData, a: seq<ItemError>, b: seq<ItemError>)
    requires ReportsInOrder(d, a) && ReportsInOrder(d, b)
    ensures FormError(a) == FormError(b)
  {
    InOrderDetermined(a, b, ItemErrorPosition);
  }

  /**
    `onSubmit`: a form that fails validation is not sent and its messages are shown one per line;
    otherwise the four fields are sent, as an update when an item is being edited.
  */
  method OnSubmit(form: ItemForm, editingId: Option<string>) returns (outcome: SubmitOutcome)
    ensures outcome.Blocked? <==> exists e :: ItemViolates(AsItemData(form), e)
    ensures outcome.Blocked? ==>
              forall line :: line in Split(outcome.formError, '\n') <==>
                exists e :: ItemViolates(AsItemData(form), e) && line == e.Message()
    ensures outcome.Blocked? ==>
              exists errors :: ReportsInOrder(AsItemData(form), errors) && outcome.formError == FormError(errors)
    ensures outcome.Sent? && editingId.Some? ==> outcome.request == UpdateItem(editingId.value, form)
    ensures outcome.Sent? && editingId.None? ==> outcome.request == CreateItem(form)
  {
    var isValid, errors := ValidateItemData(AsItemData(form));
    if !isValid {
      FormErrorLines(AsItemData(form), errors);
      assert ReportsInOrder(AsItemData(form), errors);
      outcome := Blocked(FormError(errors));
      assert errors[0] in errors;
      return;
    }
    assert forall e :: !ItemViolates(AsItemData(form), e);
    match editingId
    case Some(id) =>
      outcome := Sent(UpdateItem(id, form));
    case None =>
      outcome := Sent(CreateItem(form));
  }
}
