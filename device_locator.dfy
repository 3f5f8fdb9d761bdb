/**
 * Device Locator: takes the first extension unit an opened device advertises and
 * accepts it only when its 16-byte extension code is the vendor's.
 */
module DeviceLocator {
  import opened XuTypes

  /** What locating the vendor unit comes to. */
  datatype Located = NotFound | Mismatch | Found(unitId: byte)

  /**
   * The identity check on the head of the extension-unit list: no unit at all,
   * a unit whose code differs somewhere, or the vendor's unit and its id.
   */
  function Locate(first: Option<ExtensionUnit>): (r: Located)
    ensures r == NotFound <==> first == None
    ensures r.Found? <==>
      first.Some? && forall i :: 0 <= i < GUID_LENGTH ==> first.value.guid[i] == VENDOR_GUID[i]
    ensures r.Found? ==> r.unitId == first.value.unitId
  {
    match first
    case None => NotFound
    case Some(unit) => if unit.guid == VENDOR_GUID then Found(unit.unitId) else Mismatch
  }

  /**
   * The byte-by-byte comparison loop: stops at the first byte that differs from
   * the vendor code.
   */
  method MatchGuid(code: Guid) returns (matched: bool)
    ensures matched <==> code == VENDOR_GUID
  {
    for i := 0 to GUID_LENGTH
      invariant code[..i] == VENDOR_GUID[..i]
    {
      if VENDOR_GUID[i] != code[i] {
        return false;
      }
    }
    assert code == code[..GUID_LENGTH] && VENDOR_GUID == VENDOR_GUID[..GUID_LENGTH];
    return true;
  }

  /** A single differing byte, wherever it is, is enough to reject the unit. */
  lemma OneByteRejects(unit: ExtensionUnit, i: nat)
    requires i < GUID_LENGTH && unit.guid[i] != VENDOR_GUID[i]
    ensures Locate(Some(unit)) == Mismatch
  {
  }
}
