/**
 * The draft listing of the API: for each unpublished draft, a preview of its
 * body, found by searching the decoded document for the first paragraph text.
 *
 * `json.loads` is the parameter `parseJson` (None when it raises). Any
 * exception raised while the document is searched makes the preview
 * "Content available"; the model spells out which shapes raise.
 */
module DraftPreview {
  import opened Wrappers
  import opened Text
  import opened Json
  import opened Http

  /** What searching part of the document gives: a text, nothing, or an exception. */
  datatype Scan = Found(text: Json) | Missing | Crash

  /** `v[:100]` for a string or a list; None when slicing `v` raises. */
  function Slice100(v: Json): (r: Option<Json>)
    ensures v.Str? ==> r.Some? && r.value.Str? && r.value.s <= v.s && |r.value.s| == if |v.s| < 100 then |v.s| else 100
    ensures v.Arr? ==> r.Some? && r.value.Arr? && r.value.items <= v.items &&
                       |r.value.items| == if |v.items| < 100 then |v.items| else 100
    ensures !v.Str? && !v.Arr? ==> r.None?
    ensures Truthy(v) && r.Some? ==> Truthy(r.value)
  {
    match v
    case Str(s) => Some(Str(if |s| < 100 then s else s[..100]))
    case Arr(items) => Some(Arr(if |items| < 100 then items else items[..100]))
    case _ => None
  }

  /** `item.get('type') == 'text' and item.get('text')`. */
  predicate IsTextItem(item: map<string, Json>) {
    Field(item, "type") == Str("text") && Truthy(Field(item, "text"))
  }

  /** `block.get('type') == 'paragraph' and block.get('content')`. */
  predicate IsParagraph(block: map<string, Json>) {
    Field(block, "type") == Str("paragraph") && Truthy(Field(block, "content"))
  }

  /** The inner loop from position `i`: the first text item gives its cut text; an item that is no dict raises. */
  function ScanItems(items: seq<Json>, i: nat): Scan
    decreases |items| - i
  {
    if i >= |items| then Missing
    else match items[i]
      case Obj(item) =>
        if IsTextItem(item) then
          var cut := Slice100(item["text"]);
          if cut.Some? then Found(cut.value) else Crash
        else ScanItems(items, i + 1)
      case _ => Crash
  }

  /**
   * `for item in block['content']` over a truthy value: a list is searched;
   * iterating a string, a dict or a number reaches an element without `.get`
   * or raises at once.
   */
  function ScanContent(content: Json): Scan {
    match content
    case Arr(items) => ScanItems(items, 0)
    case _ => Crash
  }

  /** The outer loop from position `i`: the first paragraph that holds a text item decides; a block that is no dict raises. */
  function ScanBlocks(blocks: seq<Json>, i: nat): Scan
    decreases |blocks| - i
  {
    if i >= |blocks| then Missing
    else match blocks[i]
      case Obj(block) =>
        if IsParagraph(block) then
          var r := ScanContent(block["content"]);
          if r.Missing? then ScanBlocks(blocks, i + 1) else r
        else ScanBlocks(blocks, i + 1)
      case _ => Crash
  }

  /** What the block list of a decoded body gives, once it is known to be truthy. */
  function BlocksPreview(blocks: Json): Json {
    match blocks
    case Arr(bs) =>
      (match ScanBlocks(bs, 0)
       case Found(t) => t
       case Missing => Str(NatToString(|bs|) + " content blocks")
       case Crash => Str("Content available"))
    case _ => Str("Content available")
  }

  /** The preview of a decoded body: `body.get('content', [])` raises unless the body is a dict. */
  function BodyPreview(body: Json): Json {
    if !body.Obj? then Str("Content available")
    else
      var blocks := FieldOr(body.fields, "content", Arr([]));
      if !Truthy(blocks) then Str("No content") else BlocksPreview(blocks)
  }

  /** `content_preview` for one draft; `json.loads` raises for a body that is no string. */
  function Preview(draft: map<string, Json>, parseJson: string -> Option<Json>): Json {
    if "draft_body" in draft && Truthy(draft["draft_body"]) then
      var source := draft["draft_body"];
      if !source.Str? then Str("Content available")
      else
        match parseJson(source.s)
        case Some(body) => BodyPreview(body)
        case None => Str("Content available")
    else Str("No content")
  }

  /** The preview computation of `list_drafts_api`, with its two nested searching loops. */
  method ContentPreview(draft: map<string, Json>, parseJson: string -> Option<Json>) returns (preview: Json)
    ensures preview == Preview(draft, parseJson)
  {
    preview := Str("No content");
    if "draft_body" in draft && Truthy(draft["draft_body"]) {
      var source := draft["draft_body"];
      if !source.Str? {
        preview := Str("Content available");
        return;
      }
      var parsed := parseJson(source.s);
      if parsed.None? || !parsed.value.Obj? {
        preview := Str("Content available");
        return;
      }
      var contentBlocks := FieldOr(parsed.value.fields, "content", Arr([]));
      if Truthy(contentBlocks) {
        if !contentBlocks.Arr? {
          preview := Str("Content available");
          return;
        }
        var blocks := contentBlocks.items;
        var firstText := Str("");
        var i := 0;
        while i < |blocks|
          invariant 0 <= i <= |blocks|
          invariant firstText == Str("")
          invariant ScanBlocks(blocks, 0) == ScanBlocks(blocks, i)
        {
          if !blocks[i].Obj? {
            preview := Str("Content available");
            return;
          }
          var block := blocks[i].fields;
          if IsParagraph(block) {
            if !block["content"].Arr? {
              preview := Str("Content available");
              return;
            }
            var items := block["content"].items;
            var j := 0;
            while j < |items|
              invariant 0 <= j <= |items|
              invariant firstText == Str("")
              invariant ScanItems(items, 0) == ScanItems(items, j)
            {
              if !items[j].Obj? {
                preview := Str("Content available");
                return;
              }
              var item := items[j].fields;
              if IsTextItem(item) {
                var cut := Slice100(item["text"]);
                if cut.None? {
                  preview := Str("Content available");
                  return;
                }
                firstText := cut.value;
                break;
              }
              j := j + 1;
            }
            if Truthy(firstText) {
              break;
            }
          }
          i := i + 1;
        }
        preview := if Truthy(firstText) then firstText else Str(NatToString(|blocks|) + " content blocks");
      }
    }
  }

  /** The inner search finds the first item that is a text item, provided every item before it is a dict. */
  lemma {:induction false} ScanItemsFirst(items: seq<Json>, i: nat, m: nat)
    requires i <= m < |items| && items[m].Obj? && IsTextItem(items[m].fields)
    requires forall n :: i <= n < m ==> items[n].Obj? && !IsTextItem(items[n].fields)
    ensures ScanItems(items, i) == match Slice100(items[m].fields["text"])
                                   case Some(t) => Found(t)
                                   case None => Crash
    decreases m - i
  {
    if i < m {
      ScanItemsFirst(items, i + 1, m);
    }
  }

  /** The inner search finds nothing iff every item is a dict that is no text item. */
  lemma {:induction false} ScanItemsMissing(items: seq<Json>, i: nat)
    ensures ScanItems(items, i) == Missing <==>
            forall n :: i <= n < |items| ==> items[n].Obj? && !IsTextItem(items[n].fields)
    decreases |items| - i
  {
    if i < |items| {
      ScanItemsMissing(items, i + 1);
    }
  }

  /** A block the outer search passes over: a dict that is no paragraph, or a paragraph in which nothing is found. */
  predicate PassedOver(block: Json) {
    block.Obj? && (IsParagraph(block.fields) ==> ScanContent(block.fields["content"]) == Missing)
  }

  /** The outer search stops at the first block it does not pass over, with what that block gives. */
  lemma {:induction false} ScanBlocksFirst(blocks: seq<Json>, i: nat, j: nat)
    requires i <= j < |blocks| && !PassedOver(blocks[j])
    requires forall n :: i <= n < j ==> PassedOver(blocks[n])
    ensures ScanBlocks(blocks, i) ==
            if blocks[j].Obj? then ScanContent(blocks[j].fields["content"]) else Crash
    decreases j - i
  {
    if i < j {
      ScanBlocksFirst(blocks, i + 1, j);
    }
  }

  /** The outer search finds nothing iff it passes over every block. */
  lemma {:induction false} ScanBlocksMissing(blocks: seq<Json>, i: nat)
    ensures ScanBlocks(blocks, i) == Missing <==> forall n :: i <= n < |blocks| ==> PassedOver(blocks[n])
    decreases |blocks| - i
  {
    if i < |blocks| {
      ScanBlocksMissing(blocks, i + 1);
    }
  }

  /** The top-level block list: the body is a non-empty string that decodes to a dict whose `content` is a list. */
  function TopBlocks(draft: map<string, Json>, parseJson: string -> Option<Json>): Option<seq<Json>> {
    if "draft_body" in draft && draft["draft_body"].Str? && draft["draft_body"].s != [] then
      match parseJson(draft["draft_body"].s)
      case Some(Obj(fields)) =>
        var blocks := FieldOr(fields, "content", Arr([]));
        if blocks.Arr? then Some(blocks.items) else None
      case _ => None
    else None
  }

  /** With a non-empty top-level block list, the preview is what searching the blocks gives. */
  lemma PreviewOfBlocks(draft: map<string, Json>, parseJson: string -> Option<Json>, blocks: seq<Json>)
    requires TopBlocks(draft, parseJson) == Some(blocks) && blocks != []
    ensures Preview(draft, parseJson) == BlocksPreview(Arr(blocks))
  {
    var body := parseJson(draft["draft_body"].s).value;
    assert Preview(draft, parseJson) == BodyPreview(body);
    assert FieldOr(body.fields, "content", Arr([])) == Arr(blocks);
  }

  /** "No content" when there is no body, or when the decoded body has no top-level blocks. */
  lemma PreviewNoContent(draft: map<string, Json>, parseJson: string -> Option<Json>)
    ensures "draft_body" !in draft || !Truthy(draft["draft_body"]) ==> Preview(draft, parseJson) == Str("No content")
    ensures "draft_body" in draft && draft["draft_body"].Str? && draft["draft_body"].s != [] &&
            parseJson(draft["draft_body"].s).Some? && parseJson(draft["draft_body"].s).value.Obj? &&
            !Truthy(FieldOr(parseJson(draft["draft_body"].s).value.fields, "content", Arr([]))) ==>
            Preview(draft, parseJson) == Str("No content")
  {
  }

  /**
   * The preview is the first 100 characters of the first text item of the
   * first paragraph that has one, when every block and item before them is
   * well formed.
   */
  lemma PreviewFirstText(draft: map<string, Json>, parseJson: string -> Option<Json>, blocks: seq<Json>,
                         j: nat, items: seq<Json>, m: nat, text: string)
    requires TopBlocks(draft, parseJson) == Some(blocks)
    requires j < |blocks| && blocks[j].Obj? && IsParagraph(blocks[j].fields)
    requires forall n :: 0 <= n < j ==> PassedOver(blocks[n])
    requires blocks[j].fields["content"] == Arr(items)
    requires m < |items| && items[m].Obj? && IsTextItem(items[m].fields) && items[m].fields["text"] == Str(text)
    requires forall n :: 0 <= n < m ==> items[n].Obj? && !IsTextItem(items[n].fields)
    ensures Preview(draft, parseJson) == Str(if |text| < 100 then text else text[..100])
  {
    ScanItemsFirst(items, 0, m);
    ScanBlocksFirst(blocks, 0, j);
    PreviewOfBlocks(draft, parseJson, blocks);
  }

  /** With blocks but no text to show, the preview counts the top-level blocks. */
  lemma PreviewBlockCount(draft: map<string, Json>, parseJson: string -> Option<Json>, blocks: seq<Json>)
    requires TopBlocks(draft, parseJson) == Some(blocks) && blocks != []
    requires forall n :: 0 <= n < |blocks| ==> PassedOver(blocks[n])
    ensures Preview(draft, parseJson) == Str(NatToString(|blocks|) + " content blocks")
  {
    BlocksCount(blocks);
    PreviewOfBlocks(draft, parseJson, blocks);
  }

  /** Searching blocks that are all passed over ends with the block count. */
  lemma BlocksCount(blocks: seq<Json>)
    requires forall n :: 0 <= n < |blocks| ==> PassedOver(blocks[n])
    ensures BlocksPreview(Arr(blocks)) == Str(NatToString(|blocks|) + " content blocks")
  {
    ScanBlocksMissing(blocks, 0);
  }

  /** A body that does not decode, or is no string, or decodes to anything but a dict, gives "Content available". */
  lemma PreviewParseFailure(draft: map<string, Json>, parseJson: string -> Option<Json>)
    requires "draft_body" in draft && Truthy(draft["draft_body"])
    requires !draft["draft_body"].Str? || parseJson(draft["draft_body"].s).None? ||
             !parseJson(draft["draft_body"].s).value.Obj?
    ensures Preview(draft, parseJson) == Str("Content available")
  {
  }

  /** A top-level block that is no dict, met before any text, gives "Content available". */
  lemma PreviewMalformedBlock(draft: map<string, Json>, parseJson: string -> Option<Json>, blocks: seq<Json>, j: nat)
    requires TopBlocks(draft, parseJson) == Some(blocks)
    requires j < |blocks| && !blocks[j].Obj?
    requires forall n :: 0 <= n < j ==> PassedOver(blocks[n])
    ensures Preview(draft, parseJson) == Str("Content available")
  {
    ScanBlocksFirst(blocks, 0, j);
    PreviewOfBlocks(draft, parseJson, blocks);
  }

  /** An item the inner search steps over: a dict that is no text item. */
  predicate SkippedItem(item: Json) {
    item.Obj? && !IsTextItem(item.fields)
  }

  /** An item at which the inner search raises: no dict, or a text item whose `text` cannot be sliced. */
  predicate RaisingItem(item: Json) {
    !item.Obj? || (IsTextItem(item.fields) && Slice100(item.fields["text"]).None?)
  }

  /** The inner search raises iff the first item it does not skip is a raising one. */
  lemma {:induction false} ScanItemsCrash(items: seq<Json>, i: nat)
    ensures ScanItems(items, i) == Crash <==>
            exists m :: i <= m < |items| && (forall n :: i <= n < m ==> SkippedItem(items[n])) && RaisingItem(items[m])
    decreases |items| - i
  {
    if i < |items| {
      ScanItemsCrash(items, i + 1);
      if SkippedItem(items[i]) {
        assert ScanItems(items, i) == ScanItems(items, i + 1);
        if ScanItems(items, i) == Crash {
          var m :| i + 1 <= m < |items| && (forall n :: i + 1 <= n < m ==> SkippedItem(items[n])) && RaisingItem(items[m]);
          assert forall n :: i <= n < m ==> SkippedItem(items[n]);
        }
        if exists m :: i <= m < |items| && (forall n :: i <= n < m ==> SkippedItem(items[n])) && RaisingItem(items[m]) {
          var m :| i <= m < |items| && (forall n :: i <= n < m ==> SkippedItem(items[n])) && RaisingItem(items[m]);
          assert m != i;
          assert forall n :: i + 1 <= n < m ==> SkippedItem(items[n]);
        }
      } else {
        assert ScanItems(items, i) == Crash <==> RaisingItem(items[i]);
        if exists m :: i <= m < |items| && (forall n :: i <= n < m ==> SkippedItem(items[n])) && RaisingItem(items[m]) {
          var m :| i <= m < |items| && (forall n :: i <= n < m ==> SkippedItem(items[n])) && RaisingItem(items[m]);
          assert m == i;
        }
      }
    }
  }

  /** A block at which the outer search raises: no dict, or a paragraph whose `content` is no list or holds a raising search. */
  predicate RaisingBlock(block: Json) {
    !block.Obj? ||
    (IsParagraph(block.fields) &&
     (!block.fields["content"].Arr? || ScanItems(block.fields["content"].items, 0) == Crash))
  }

  /** The outer search raises iff the first block it does not pass over is a raising one. */
  lemma {:induction false} ScanBlocksCrash(blocks: seq<Json>, i: nat)
    ensures ScanBlocks(blocks, i) == Crash <==>
            exists j :: i <= j < |blocks| && (forall n :: i <= n < j ==> PassedOver(blocks[n])) && RaisingBlock(blocks[j])
    decreases |blocks| - i
  {
    if i < |blocks| {
      ScanBlocksCrash(blocks, i + 1);
      if PassedOver(blocks[i]) {
        assert ScanBlocks(blocks, i) == ScanBlocks(blocks, i + 1);
        if ScanBlocks(blocks, i) == Crash {
          var j :| i + 1 <= j < |blocks| && (forall n :: i + 1 <= n < j ==> PassedOver(blocks[n])) && RaisingBlock(blocks[j]);
          assert forall n :: i <= n < j ==> PassedOver(blocks[n]);
        }
        if exists j :: i <= j < |blocks| && (forall n :: i <= n < j ==> PassedOver(blocks[n])) && RaisingBlock(blocks[j]) {
          var j :| i <= j < |blocks| && (forall n :: i <= n < j ==> PassedOver(blocks[n])) && RaisingBlock(blocks[j]);
          assert j != i;
          assert forall n :: i + 1 <= n < j ==> PassedOver(blocks[n]);
        }
      } else {
        assert ScanBlocks(blocks, i) == Crash <==> RaisingBlock(blocks[i]);
        if exists j :: i <= j < |blocks| && (forall n :: i <= n < j ==> PassedOver(blocks[n])) && RaisingBlock(blocks[j]) {
          var j :| i <= j < |blocks| && (forall n :: i <= n < j ==> PassedOver(blocks[n])) && RaisingBlock(blocks[j]);
          assert j == i;
        }
      }
    }
  }

  /** Whatever raises while the top-level blocks are searched makes the preview "Content available". */
  lemma PreviewCrash(draft: map<string, Json>, parseJson: string -> Option<Json>, blocks: seq<Json>)
    requires TopBlocks(draft, parseJson) == Some(blocks) && ScanBlocks(blocks, 0) == Crash
    ensures Preview(draft, parseJson) == Str("Content available")
  {
    assert blocks != [];
    PreviewOfBlocks(draft, parseJson, blocks);
  }

  /** A decoded body whose `content` is truthy but no list gives "Content available". */
  lemma PreviewContentNotList(draft: map<string, Json>, parseJson: string -> Option<Json>)
    requires "draft_body" in draft && draft["draft_body"].Str? && draft["draft_body"].s != []
    requires parseJson(draft["draft_body"].s).Some? && parseJson(draft["draft_body"].s).value.Obj?
    requires var blocks := FieldOr(parseJson(draft["draft_body"].s).value.fields, "content", Arr([]));
             Truthy(blocks) && !blocks.Arr?
    ensures Preview(draft, parseJson) == Str("Content available")
  {
  }

  /** One entry of the draft list. The fields keep the JSON values the code passes on. */
  datatype DraftInfo = DraftInfo(id: Json, title: Json, subtitle: Json, contentPreview: Json, updatedAt: Json)

  function InfoOf(draft: map<string, Json>, parseJson: string -> Option<Json>): (info: DraftInfo)
    requires "id" in draft
    ensures info.id == draft["id"] && info.contentPreview == Preview(draft, parseJson)
    ensures info.title == if "draft_title" in draft then draft["draft_title"] else Str("Untitled")
  {
    DraftInfo(draft["id"], FieldOr(draft, "draft_title", Str("Untitled")), Field(draft, "draft_subtitle"),
              Preview(draft, parseJson), Field(draft, "draft_updated_at"))
  }

  /** `draft['id']` raising KeyError: the handler turns it into a 500 with the exception's text. */
  const MissingIdError := HttpError(500, Str("Internal error: 'id'"))

  /**
   * `list_drafts_api` once the account is active: a 500 when the drafts could
   * not be fetched, a 500 when a draft has no id, and otherwise one entry per
   * draft, in order.
   */
  method ListDrafts(drafts: Option<seq<map<string, Json>>>, parseJson: string -> Option<Json>)
    returns (r: Result<seq<DraftInfo>, HttpError>)
    ensures drafts.None? ==> r == Failure(HttpError(500, Str("Failed to fetch drafts")))
    ensures drafts.Some? && (exists i :: 0 <= i < |drafts.value| && "id" !in drafts.value[i]) ==>
            r == Failure(MissingIdError)
    ensures drafts.Some? && (forall i :: 0 <= i < |drafts.value| ==> "id" in drafts.value[i]) ==>
            r.Success? && |r.value| == |drafts.value| &&
            forall i :: 0 <= i < |drafts.value| ==> r.value[i] == InfoOf(drafts.value[i], parseJson)
  {
    if drafts.None? {
      return Failure(HttpError(500, Str("Failed to fetch drafts")));
    }
    var ds := drafts.value;
    var draftList: seq<DraftInfo> := [];
    for i := 0 to |ds|
      invariant |draftList| == i
      invariant forall n :: 0 <= n < i ==> "id" in ds[n] && draftList[n] == InfoOf(ds[n], parseJson)
    {
      var contentPreview := ContentPreview(ds[i], parseJson);
      if "id" !in ds[i] {
        return Failure(MissingIdError);
      }
      draftList := draftList + [DraftInfo(ds[i]["id"], FieldOr(ds[i], "draft_title", Str("Untitled")),
                                          Field(ds[i], "draft_subtitle"), contentPreview,
                                          Field(ds[i], "draft_updated_at"))];
    }
    return Success(draftList);
  }
}
