/**
 * The upload form: the selected file and owner, the guard that blocks an
 * incomplete submission, the extraction of the base64 payload from a data
 * URL, and the DTO sent to `/api/documents/upload`.
 */
module Upload {
  import opened Net

  /** The browser's `File`: only the attributes the form reads. */
  datatype SelectedFile = SelectedFile(name: string, mimeType: string, size: int)

  datatype DocumentDto = DocumentDto(owner: string, fileType: string, size: int, base64Content: string)

  /** How the `FileReader` finished: loaded with its `result` (which may be
      null), or failed. */
  datatype FileRead = Loaded(result: Option<string>) | ReadFailed

  /** The alert the submission ends with, if any. */
  datatype Notice = MissingInput | Uploaded | UploadFailed | NoNotice

  /** JavaScript's `s.split(sep)` for a one-character separator: the pieces
      between separators, always at least one. */
  function Split(s: string, sep: char): (parts: seq<string>)
    ensures |parts| >= 1
    ensures forall i :: 0 <= i < |parts| ==> sep !in parts[i]
  {
    if |s| == 0 then [""]
    else
      var rest := Split(s[1..], sep);
      if s[0] == sep then [""] + rest
      else [[s[0]] + rest[0]] + rest[1..]
  }

  /** JavaScript's `parts.join(sep)`. */
  function Join(parts: seq<string>, sep: char): string
    requires |parts| >= 1
  {
    if |parts| == 1 then parts[0]
    else parts[0] + [sep] + Join(parts[1..], sep)
  }

  /** Joining the pieces gives back the string that was split. */
  lemma {:induction false} JoinSplit(s: string, sep: char)
    ensures Join(Split(s, sep), sep) == s
  {
    if |s| > 0 {
      var rest := Split(s[1..], sep);
      JoinSplit(s[1..], sep);
      if s[0] == sep {
        assert Split(s, sep) == [""] + rest;
        assert ([""] + rest)[1..] == rest;
        assert s == [sep] + s[1..];
      } else {
        var parts := Split(s, sep);
        assert parts == [[s[0]] + rest[0]] + rest[1..];
        if |rest| == 1 {
          assert s == [s[0]] + rest[0];
        } else {
          assert parts[1..] == rest[1..];
          assert s == [s[0]] + (rest[0] + [sep] + Join(rest[1..], sep));
        }
      }
    }
  }

  /** Splitting joined pieces that contain no separator gives the pieces back. */
  lemma {:induction false} SplitJoin(parts: seq<string>, sep: char)
    requires |parts| >= 1
    requires forall i :: 0 <= i < |parts| ==> sep !in parts[i]
    ensures Split(Join(parts, sep), sep) == parts
  {
    if |parts| == 1 {
      SplitWithoutSeparator(parts[0], sep);
    } else {
      SplitJoin(parts[1..], sep);
      SplitAfterSeparator(parts[0], Join(parts[1..], sep), sep);
      assert parts == [parts[0]] + parts[1..];
    }
  }

  lemma {:induction false} SplitWithoutSeparator(s: string, sep: char)
    requires sep !in s
    ensures Split(s, sep) == [s]
  {
    if |s| > 0 {
      SplitWithoutSeparator(s[1..], sep);
      assert s == [s[0]] + s[1..];
    }
  }

  /** A separator-free prefix and a separator split off as the first piece. */
  lemma {:induction false} SplitAfterSeparator(a: string, b: string, sep: char)
    requires sep !in a
    ensures Split(a + [sep] + b, sep) == [a] + Split(b, sep)
  {
    var s := a + [sep] + b;
    if |a| == 0 {
      assert s == [sep] + b;
      assert s[1..] == b;
    } else {
      assert s[1..] == a[1..] + [sep] + b;
      SplitAfterSeparator(a[1..], b, sep);
      assert a == [a[0]] + a[1..];
    }
  }

  /** `reader.result?.toString().split(',')[1] || ''`: the second
      comma-separated piece of the data URL, or empty when there is none. */
  function ExtractBase64(result: Option<string>): (content: string)
    ensures ',' !in content
    ensures result.None? ==> content == ""
  {
    match result
    case None => ""
    case Some(s) =>
      var parts := Split(s, ',');
      if |parts| >= 2 then parts[1] else ""
  }

  /** The first piece of a split is the longest separator-free prefix. */
  lemma {:induction false} FirstPiece(s: string, sep: char)
    ensures var p := Split(s, sep)[0];
      |p| <= |s| && s[..|p|] == p && (|p| == |s| || s[|p|] == sep)
  {
    if |s| > 0 && s[0] != sep {
      FirstPiece(s[1..], sep);
    }
  }

  /** A string without a comma yields no content. */
  lemma ExtractWithoutComma(s: string)
    requires ',' !in s
    ensures ExtractBase64(Some(s)) == ""
  {
    SplitWithoutSeparator(s, ',');
  }

  /** Written as `prefix` (comma-free), the first comma, then `tail`, a
      string yields the part of `tail` before its next comma, or all of
      `tail` when it has none. */
  lemma ExtractSegment(prefix: string, tail: string)
    requires ',' !in prefix
    ensures var content := ExtractBase64(Some(prefix + [','] + tail));
      |content| <= |tail| && tail[..|content|] == content &&
      (|content| == |tail| || tail[|content|] == ',')
  {
    SplitAfterSeparator(prefix, tail, ',');
    FirstPiece(tail, ',');
  }

  /** A data URL `header,payload` with a comma-free payload (the base64
      alphabet has no comma) gives back exactly the payload. */
  lemma DataUrlRoundTrip(header: string, payload: string)
    requires ',' !in header && ',' !in payload
    ensures ExtractBase64(Some(header + "," + payload)) == payload
  {
    SplitAfterSeparator(header, payload, ',');
    SplitWithoutSeparator(payload, ',');
  }

  /** The state slots of the upload form. */
  class FileUpload {
    var file: Option<SelectedFile>
    var owner: string

    constructor ()
      ensures file == None && owner == ""
    {
      file := None;
      owner := "";
    }

    /** `handleFileChange`: the first selected file, or none when the list is
        missing or empty. */
    method HandleFileChange(files: Option<seq<SelectedFile>>)
      modifies this`file
      ensures files.Some? && |files.value| > 0 ==> file == Some(files.value[0])
      ensures files.None? || |files.value| == 0 ==> file == None
    {
      if files.Some? && |files.value| > 0 {
        file := Some(files.value[0]);
      } else {
        file := None;
      }
    }

    /** The owner input. */
    method SetOwner(value: string)
      modifies this`owner
      ensures owner == value
    {
      owner := value;
    }

    /** `handleSubmit`: without a file or with an empty owner no request is
        made. Otherwise the file is read and, if reading succeeds, the DTO
        is posted; `outcome` is the upload's response. The form state is
        never changed. */
    method HandleSubmit(read: FileRead, outcome: Response<()>) returns (request: Option<DocumentDto>, notice: Notice)
      ensures request.Some? <==> file.Some? && owner != "" && read.Loaded?
      ensures request.Some? ==>
        request.value.owner == owner &&
        request.value.fileType == file.value.mimeType &&
        request.value.size == file.value.size &&
        request.value.base64Content == ExtractBase64(read.result)
      ensures file.None? || owner == "" ==> notice == MissingInput
      ensures request.Some? ==>
        notice == (match outcome
                   case Ok(_) => Uploaded
                   case NotOk => UploadFailed
                   case Threw(_) => NoNotice)
      ensures file.Some? && owner != "" && read.ReadFailed? ==> notice == NoNotice
    {
      if file.None? || owner == "" {
        return None, MissingInput;
      }
      match read {
        case ReadFailed =>
          request, notice := None, NoNotice;
        case Loaded(result) =>
          var base64Content := ExtractBase64(result);
          var dto := DocumentDto(owner, file.value.mimeType, file.value.size, base64Content);
          request := Some(dto);
          notice := match outcome
            case Ok(_) => Uploaded
            case NotOk => UploadFailed
            case Threw(_) => NoNotice;
      }
    }
  }
}
