/** `SupportingDocument`: a stored upload attached to a claim, and its display helpers. */
module Documents {
  import opened Wrappers
  import opened Time
  import opened Text


  /** An uploaded file as the request delivers it (`IFormFile`). */
  datatype Upload = Upload(fileName: string, length: int, contentType: string)

  datatype SupportingDocument = SupportingDocument(
    id: Guid,
    claimId: Guid,
    originalFileName: string,
    fileName: string,
    fileSize: int,
    contentType: string,
    description: Option<string>,
    uploadDate: Ticks,
    uploadedBy: string)

  /** The unit names of `FileSizeFormatted`, smallest first. */
  const SizeUnits: seq<string> := ["B", "KB", "MB", "GB"]

  /** 1024 to the power `k`, for the four units. */
  function Scale(k: nat): (r: real)
    requires k < 4
    ensures r >= 1.0
  {
    if k == 0 then 1.0 else if k == 1 then 1024.0 else if k == 2 then 1048576.0 else 1073741824.0
  }

  /**
   * Reference definition of the unit `FileSizeFormatted` picks: the largest
   * power of 1024 the size reaches, capped at gigabytes.
   */
  function UnitIndex(fileSize: int): (k: nat)
    ensures k < 4
  {
    if fileSize < 1024 then 0
    else if fileSize < 1048576 then 1
    else if fileSize < 1073741824 then 2
    else 3
  }

  /**
   * The unit-selection loop of `FileSizeFormatted`: divide by 1024 while
   * the value is at least 1024 and a larger unit remains. Returns the scaled
   * value and the unit name (the two-decimal rendering is not modelled).
   */
  method FileSizeFormatted(fileSize: int) returns (len: real, unit: string)
    ensures unit == SizeUnits[UnitIndex(fileSize)]
    ensures len * Scale(UnitIndex(fileSize)) == fileSize as real
    ensures UnitIndex(fileSize) < 3 ==> len < 1024.0
    ensures fileSize < 1024 ==> unit == "B" && len == fileSize as real
  {
    var sizes := SizeUnits;
    len := fileSize as real;
    var order := 0;
    while len >= 1024.0 && order < |sizes| - 1
      invariant 0 <= order <= 3
      invariant len * Scale(order) == fileSize as real
      invariant order > 0 ==> len >= 1.0
      decreases 3 - order
    {
      order := order + 1;
      len := len / 1024.0;
    }
    assert order == UnitIndex(fileSize);
    unit := sizes[order];
  }

  const PdfIcon: string := "fas fa-file-pdf text-danger"
  const WordIcon: string := "fas fa-file-word text-primary"
  const ExcelIcon: string := "fas fa-file-excel text-success"
  const ImageIcon: string := "fas fa-file-image text-info"
  const GenericIcon: string := "fas fa-file text-secondary"

  /** `FileIcon`: the first of the guarded arms whose word the content type contains. */
  function FileIcon(contentType: string): (icon: string)
    ensures icon == PdfIcon <==> Contains(contentType, "pdf")
    ensures icon == WordIcon <==> !Contains(contentType, "pdf") && Contains(contentType, "word")
    ensures icon == ExcelIcon <==>
      !Contains(contentType, "pdf") && !Contains(contentType, "word")
      && (Contains(contentType, "excel") || Contains(contentType, "spreadsheet"))
    ensures icon == ImageIcon <==>
      !Contains(contentType, "pdf") && !Contains(contentType, "word")
      && !Contains(contentType, "excel") && !Contains(contentType, "spreadsheet")
      && Contains(contentType, "image")
    ensures icon == GenericIcon <==>
      !Contains(contentType, "pdf") && !Contains(contentType, "word")
      && !Contains(contentType, "excel") && !Contains(contentType, "spreadsheet")
      && !Contains(contentType, "image")
  {
    if Contains(contentType, "pdf") then PdfIcon
    else if Contains(contentType, "word") then WordIcon
    else if Contains(contentType, "excel") || Contains(contentType, "spreadsheet") then ExcelIcon
    else if Contains(contentType, "image") then ImageIcon
    else GenericIcon
  }

  /** `IsImage`: the content type begins with "image/". */
  predicate IsImage(contentType: string) {
    StartsWith(contentType, "image/")
  }

  /**
   * An image content type never gets the generic icon (its prefix contains
   * "image"), though an earlier arm can still win, so the converse fails:
   * "application/x-image" gets the image icon and is not an image.
   */
  lemma ImageHasSpecificIcon(contentType: string)
    requires IsImage(contentType)
    ensures FileIcon(contentType) != GenericIcon
  {
    var prefix := contentType[..6];
    assert prefix[..5] == "image";
    StartsWithContains(prefix, "image");
    ContainsInPrefix(contentType, 6, "image");
  }

  lemma IconIsNotImageTest()
    ensures FileIcon("application/x-image") == ImageIcon && !IsImage("application/x-image")
  {
    var ct := "application/x-image";
    assert ct[..6][0] == 'a' != "image/"[0];
    assert OccursAt(ct, "image", 14);
    assert !Contains(ct, "pdf") by {
      forall i | 0 <= i <= |ct| - 3 ensures !OccursAt(ct, "pdf", i) {
        assert ct[i..i + 3][0] == ct[i] && ct[i..i + 3][1] == ct[i + 1];
        assert ct[i] != 'p' || ct[i + 1] != 'd';
      }
    }
    assert !Contains(ct, "word") by {
      forall i | 0 <= i <= |ct| - 4 ensures !OccursAt(ct, "word", i) {
        assert ct[i..i + 4][0] == ct[i] != 'w';
      }
    }
    assert !Contains(ct, "excel") by {
      forall i | 0 <= i <= |ct| - 5 ensures !OccursAt(ct, "excel", i) {
        assert ct[i..i + 5][0] == ct[i] && ct[i..i + 5][1] == ct[i + 1];
        assert ct[i + 1] != 'x' || ct[i] != 'e';
      }
    }
    assert !Contains(ct, "spreadsheet") by {
      forall i | 0 <= i <= |ct| - 11 ensures !OccursAt(ct, "spreadsheet", i) {
        assert ct[i..i + 11][0] == ct[i] != 's';
      }
    }
  }
}
