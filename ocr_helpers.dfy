/** The two pure helpers around the vision OCR call (backend/src/lg_helpers.py): the
    file extension chosen for the temporary upload, and the text taken from the OCR
    service's response. */
module OcrHelpers {
  import opened Wrappers
  import opened Text
  import opened Models

  /** `os.path.splitext(path)[1]` for a POSIX path: from the last dot of the last path
      component to the end, unless that dot only follows other dots at the start of the
      component (a hidden file such as ".env" has no extension). */
  function SplitExt(path: string): (ext: string)
    ensures ext == "" || (ext[0] == '.' && EndsWith(path, ext))
    ensures forall k :: 0 <= k < |ext| ==> ext[k] != '/'
  {
    var sep := LastIndexOf(path, '/');
    var dot := LastIndexOf(path, '.');
    if dot > sep && exists k :: sep < k < dot && path[k] != '.' then path[dot..]
    else ""
  }

  /** The text after the last '/' of a MIME type: `file_type.split("/")[-1]`. */
  function Subtype(fileType: string): (r: string)
    ensures EndsWith(fileType, r)
    ensures forall k :: 0 <= k < |r| ==> r[k] != '/'
  {
    fileType[LastIndexOf(fileType, '/') + 1..]
  }

  /** The extension `_write_temp_file_from_base64` gives the temporary file: a non-empty
      MIME type decides (".pdf" for PDF and for anything that is not an image, the image
      subtype otherwise); without one, the file name's extension when it has a dot, and
      ".pdf" otherwise. */
  function GuessedExtension(fileName: Option<string>, fileType: Option<string>): (ext: string)
    ensures fileType.Some? && fileType.value != "" && !StartsWith(fileType.value, "image/") ==> ext == ".pdf"
    ensures fileType.Some? && fileType.value != "" && StartsWith(fileType.value, "image/") ==>
      ext == "." + Subtype(fileType.value)
    ensures (fileType.None? || fileType == Some("")) && (fileName.None? || '.' !in fileName.value) ==> ext == ".pdf"
    ensures (fileType.None? || fileType == Some("")) && fileName.Some? && '.' in fileName.value ==>
      ext == SplitExt(fileName.value)
    ensures ext == "" || ext[0] == '.'
    ensures forall k :: 0 <= k < |ext| ==> ext[k] != '/'
  {
    if fileType.Some? && fileType.value != "" then
      if fileType.value == "application/pdf" then
        assert fileType.value[0] != "image/"[0];
        ".pdf"
      else if StartsWith(fileType.value, "image/") then "." + Subtype(fileType.value)
      else ".pdf"
    else if fileName.Some? && fileName.value != "" && '.' in fileName.value then SplitExt(fileName.value)
    else ".pdf"
  }

  /** The image subtype becomes the extension. */
  lemma PngExtension()
    ensures GuessedExtension(None, Some("image/png")) == ".png"
  {
    var t := "image/png";
    assert StartsWith(t, "image/");
    assert LastIndexOf(t, '/') == 5 by {
      assert t[5] == '/';
      assert forall k :: 5 < k < |t| ==> t[k] != '/';
    }
    assert t[6..] == "png";
  }

  /** The file name's last extension is used when no MIME type is given. */
  lemma FileNameExtension()
    ensures GuessedExtension(Some("scan.v2.jpeg"), None) == ".jpeg"
  {
    var n := "scan.v2.jpeg";
    assert '.' in n by { assert n[4] == '.'; }
    assert LastIndexOf(n, '/') == -1 by {
      assert forall k :: 0 <= k < |n| ==> n[k] != '/';
    }
    assert LastIndexOf(n, '.') == 7 by {
      assert n[7] == '.';
      assert forall k :: 7 < k < |n| ==> n[k] != '.';
    }
    assert n[0] != '.';
    assert n[7..] == ".jpeg";
  }

  /** A hidden file's leading dot is not an extension. */
  lemma HiddenFileHasNoExtension()
    ensures GuessedExtension(Some(".env"), None) == ""
  {
    var n := ".env";
    assert '.' in n by { assert n[0] == '.'; }
    assert LastIndexOf(n, '/') == -1 by {
      assert forall k :: 0 <= k < |n| ==> n[k] != '/';
    }
    assert LastIndexOf(n, '.') == 0 by {
      assert n[0] == '.';
      assert forall k :: 0 < k < |n| ==> n[k] != '.';
    }
  }

  /** A content block the response comprehension keeps: an object whose `type` is the
      string "string" and whose `text` is truthy. */
  predicate Qualifies(block: Value)
  {
    block.Dict? && Get(block.entries, "type") == Some(Str("string"))
    && Get(block.entries, "text").Some? && Truthy(Get(block.entries, "text").value)
  }

  /** `[block['text'] for block in blocks if ...]`, in block order. */
  function BlockTexts(blocks: seq<Value>): (r: seq<Value>)
    ensures |r| <= |blocks|
    ensures forall k :: 0 <= k < |r| ==> Truthy(r[k])
    decreases |blocks|
  {
    if |blocks| == 0 then []
    else
      var front := BlockTexts(blocks[..|blocks| - 1]);
      var block := blocks[|blocks| - 1];
      if Qualifies(block) then front + [Get(block.entries, "text").value] else front
  }

  /** `_extract_text_from_mistral_response`: the kept texts joined by blank lines; ""
      when the response is not an object, its `content` is not a list, nothing is
      kept, or the join meets a kept text that is not a string. */
  function MistralText(data: Value): (r: string)
    ensures !data.Dict? ==> r == ""
  {
    if !data.Dict? then ""
    else
      match GetOr(data.entries, "content", List([]))
      case List(blocks) =>
        var texts := BlockTexts(blocks);
        if |texts| == 0 || exists k :: 0 <= k < |texts| && !texts[k].Str? then ""
        else Join(seq(|texts|, k requires 0 <= k < |texts| => texts[k].s), "\n\n")
      case _ => ""
  }

  /** A block as the OCR service produces it: an object whose `text`, if present, is a
      string. */
  predicate WellFormedBlock(block: Value)
  {
    block.Dict? && (Get(block.entries, "text").None? || Get(block.entries, "text").value.Str?)
  }

  /** The non-empty texts of the string-typed blocks, in block order. */
  function StringBlockTexts(blocks: seq<Value>): (r: seq<string>)
    requires forall i :: 0 <= i < |blocks| ==> WellFormedBlock(blocks[i])
    ensures forall k :: 0 <= k < |r| ==> r[k] != ""
    decreases |blocks|
  {
    if |blocks| == 0 then []
    else
      var front := StringBlockTexts(blocks[..|blocks| - 1]);
      var block := blocks[|blocks| - 1];
      assert WellFormedBlock(block);
      var text := Get(block.entries, "text");
      if Get(block.entries, "type") == Some(Str("string")) && text.Some? && text.value.s != ""
      then front + [text.value.s] else front
  }

  /** For well-formed blocks, the comprehension keeps exactly the non-empty texts of the
      string-typed blocks. */
  lemma {:induction false} BlockTextsOfWellFormed(blocks: seq<Value>)
    requires forall i :: 0 <= i < |blocks| ==> WellFormedBlock(blocks[i])
    ensures |BlockTexts(blocks)| == |StringBlockTexts(blocks)|
    ensures forall k :: 0 <= k < |BlockTexts(blocks)| ==> BlockTexts(blocks)[k] == Str(StringBlockTexts(blocks)[k])
    decreases |blocks|
  {
    if |blocks| > 0 {
      var front := blocks[..|blocks| - 1];
      assert forall i :: 0 <= i < |front| ==> front[i] == blocks[i];
      BlockTextsOfWellFormed(front);
      var block := blocks[|blocks| - 1];
      assert WellFormedBlock(block);
    }
  }

  /** For a response whose blocks are well formed, the text is the non-empty texts of the
      string-typed blocks, in order, joined by blank lines. */
  lemma MistralJoinsStringBlocks(entries: seq<(string, Value)>, blocks: seq<Value>)
    requires Get(entries, "content") == Some(List(blocks))
    requires forall i :: 0 <= i < |blocks| ==> WellFormedBlock(blocks[i])
    ensures MistralText(Dict(entries)) == Join(StringBlockTexts(blocks), "\n\n")
  {
    BlockTextsOfWellFormed(blocks);
    var texts := BlockTexts(blocks);
    assert !exists k :: 0 <= k < |texts| && !texts[k].Str?;
    var strings := seq(|texts|, k requires 0 <= k < |texts| => texts[k].s);
    assert strings == StringBlockTexts(blocks);
  }

  /** A block whose text is truthy but not a string makes the join raise, which the
      helper turns into the empty text. */
  lemma NonStringTextGivesEmpty(entries: seq<(string, Value)>, block: Value)
    requires Get(entries, "content") == Some(List([block]))
    requires Qualifies(block) && !Get(block.entries, "text").value.Str?
    ensures MistralText(Dict(entries)) == ""
  {
    assert [block][..0] == [];
    assert BlockTexts([block]) == [Get(block.entries, "text").value];
  }
}
