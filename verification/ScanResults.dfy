/** The result of scanning one bean archive: the reference the scanner found it by, and
    the id the deployment archive will carry. */
module ScanResults {
  import opened Outcomes
  import opened Throwables
  import opened TextUtil

  type BeansXmlRef = string

  /** `beanArchiveId` is `None` while unset (null). */
  datatype ScanResult = ScanResult(beansXml: BeansXmlRef, beanArchiveRef: string, beanArchiveId: Option<string>)

  /** The two-argument constructor: the id is left unset. */
  function NewScanResult(beansXml: BeansXmlRef, beanArchiveRef: string): (r: ScanResult)
    ensures r.beansXml == beansXml && r.beanArchiveRef == beanArchiveRef && r.beanArchiveId.None?
  {
    ScanResult(beansXml, beanArchiveRef, None)
  }

  /** `getBeanArchiveId`: the explicit id when set, else the reference. */
  function GetBeanArchiveId(r: ScanResult): (id: string)
    ensures r.beanArchiveId.Some? ==> id == r.beanArchiveId.value
    ensures r.beanArchiveId.None? ==> id == r.beanArchiveRef
  {
    r.beanArchiveId.GetOr(r.beanArchiveRef)
  }

  const SEPARATOR_NULL: Throwable := IllegalArgument("separator")

  /** `extractBeanArchiveId`: a null separator is rejected; a reference without the
      separator leaves the result as it is; otherwise the id becomes the reference's suffix
      from the separator's first occurrence on. The method returns the result itself. */
  function ExtractBeanArchiveId(r: ScanResult, separator: Option<string>): (e: Result<ScanResult, Throwable>)
    ensures separator.None? ==> e == Err(SEPARATOR_NULL)
    ensures separator.Some? ==> e.Ok? && e.value.beansXml == r.beansXml && e.value.beanArchiveRef == r.beanArchiveRef
    ensures separator.Some? && !Contains(r.beanArchiveRef, separator.value) ==> e == Ok(r)
  {
    match separator
    case None => Err(SEPARATOR_NULL)
    case Some(sep) =>
      if Contains(r.beanArchiveRef, sep) then
        Ok(r.(beanArchiveId := Some(r.beanArchiveRef[IndexOf(r.beanArchiveRef, sep)..])))
      else Ok(r)
  }

  // ---- properties ----

  /** Without an explicit id, the id is the reference. */
  lemma UnsetIdIsRef(beansXml: BeansXmlRef, beanArchiveRef: string)
    ensures GetBeanArchiveId(NewScanResult(beansXml, beanArchiveRef)) == beanArchiveRef
  {
  }

  /** When the reference contains the separator, the extracted id is the part of the
      reference that starts at the separator's first occurrence: the id starts with the
      separator, the reference ends with the id, and no occurrence comes earlier. */
  lemma ExtractedIdIsSuffixFromFirstSeparator(r: ScanResult, sep: string)
    requires Contains(r.beanArchiveRef, sep)
    ensures var id := GetBeanArchiveId(ExtractBeanArchiveId(r, Some(sep)).value);
            && StartsWith(id, sep)
            && |id| <= |r.beanArchiveRef|
            && r.beanArchiveRef[|r.beanArchiveRef| - |id|..] == id
            && forall i: nat :: i < |r.beanArchiveRef| - |id| ==> !OccursAt(r.beanArchiveRef, sep, i)
  {
    var ref := r.beanArchiveRef;
    var k := IndexOf(ref, sep);
    var id := ref[k..];
    assert id[..|sep|] == ref[k..k + |sep|];
    assert |ref| - |id| == k;
  }

  /** Extracting twice with the same separator gives the same id as extracting once. */
  lemma ExtractIsIdempotent(r: ScanResult, sep: string)
    ensures var once := ExtractBeanArchiveId(r, Some(sep)).value;
            ExtractBeanArchiveId(once, Some(sep)) == Ok(once)
  {
  }

  /** A reference without the separator keeps whatever id it had, the reference itself
      when none was set. */
  lemma NoSeparatorKeepsId(r: ScanResult, sep: string)
    requires !Contains(r.beanArchiveRef, sep)
    ensures GetBeanArchiveId(ExtractBeanArchiveId(r, Some(sep)).value) == GetBeanArchiveId(r)
  {
  }
}
