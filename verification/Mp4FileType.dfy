/** Which files are taken for MP4: the brands that are known, and the names of the boxes. */
module Mp4FileType {
  import opened Common
  import opened Mp4Boxes
  import opened Mp4Verification

  predicate Named(kind: Bytes, name: string) {
    |kind| == |name| && forall i :: 0 <= i < |kind| ==> kind[i] == name[i] as int
  }

  const BRANDS: seq<string> := ["isom", "iso2", "mp41", "mp42", "avc1", "M4V "]

  ghost predicate KnownBrand(brand: Bytes) {
    exists i :: 0 <= i < |BRANDS| && Named(brand, BRANDS[i])
  }

  lemma KnownIsSupported(brand: Bytes)
    requires |brand| == 4
    ensures KnownBrand(brand) <==> SupportedBrand(brand)
  {
    if SupportedBrand(brand) {
      assert Named(brand, BRANDS[0]) || Named(brand, BRANDS[1]) || Named(brand, BRANDS[2]) || Named(brand, BRANDS[3])
        || Named(brand, BRANDS[4]) || Named(brand, BRANDS[5]);
    }
  }

  /** Every four bytes from `from` on there is room for a brand. */
  predicate Place(k: nat, from: nat, end: nat) {
    from <= k && k + 4 <= end && (k - from) % 4 == 0
  }

  /** The major brand, and behind the minor version one every four bytes. */
  predicate BrandPlace(k: nat, start: nat, end: nat) {
    k == start || Place(k, start + 8, end)
  }

  lemma PlacesBehind(offset: nat, end: nat)
    requires offset + 4 <= end
    ensures Place(offset, offset, end)
    ensures forall k: nat :: Place(k, offset, end) ==> k == offset || Place(k, offset + 4, end)
    ensures forall k: nat :: Place(k, offset + 4, end) ==> Place(k, offset, end)
  {
  }

  lemma {:induction false} BrandsExactly(bytes: Bytes, offset: nat, end: nat)
    requires end <= |bytes|
    ensures Brands(bytes, offset, end).Ok? <==> forall k: nat :: Place(k, offset, end) ==> Printable(bytes[k..k + 4])
    ensures Brands(bytes, offset, end).Ok? ==> forall brand :: brand in Brands(bytes, offset, end).value <==>
      exists k: nat :: Place(k, offset, end) && bytes[k..k + 4] == brand
    decreases end - offset
  {
    hide Printable;
    if offset + 4 <= end {
      BrandsExactly(bytes, offset + 4, end);
      PlacesBehind(offset, end);
      hide Place;
      var r, rest := Brands(bytes, offset, end), Brands(bytes, offset + 4, end);
      if r.Ok? {
        forall brand | brand in r.value ensures exists k: nat :: Place(k, offset, end) && bytes[k..k + 4] == brand {
          if brand in rest.value {
            var k: nat :| Place(k, offset + 4, end) && bytes[k..k + 4] == brand;
            assert Place(k, offset, end);
          }
        }
        forall k: nat | Place(k, offset, end) ensures bytes[k..k + 4] in r.value {
          assert k == offset || bytes[k..k + 4] in rest.value;
        }
      } else if rest.Err? {
        var k: nat :| Place(k, offset + 4, end) && !Printable(bytes[k..k + 4]);
        assert Place(k, offset, end);
      }
    }
  }

  lemma BrandsSupported(bytes: Bytes, start: nat, end: nat)
    requires start + 8 <= end <= |bytes|
    ensures var r := FileType(bytes, Box(FTYP, start, start, end));
      r.Ok? <==>
        && (forall k: nat :: BrandPlace(k, start, end) ==> Printable(bytes[k..k + 4]))
        && exists k: nat :: BrandPlace(k, start, end) && SupportedBrand(bytes[k..k + 4])
  {
    BrandsExactly(bytes, start + 8, end);
    hide Printable, SupportedBrand, Place, Brands;
    var rest := Brands(bytes, start + 8, end);
    assert forall k: nat :: Place(k, start + 8, end) ==> BrandPlace(k, start, end);
    if rest.Ok? && Printable(bytes[start..start + 4]) {
      var brands := [bytes[start..start + 4]] + rest.value;
      forall k: nat | BrandPlace(k, start, end) ensures bytes[k..k + 4] in brands {
      }
      forall b | b in brands ensures exists k: nat :: BrandPlace(k, start, end) && bytes[k..k + 4] == b {
        if b == bytes[start..start + 4] {
          assert BrandPlace(start, start, end);
        } else {
          var k: nat :| Place(k, start + 8, end) && bytes[k..k + 4] == b;
          assert BrandPlace(k, start, end);
        }
      }
    } else if rest.Err? {
      var k: nat :| Place(k, start + 8, end) && !Printable(bytes[k..k + 4]);
      assert BrandPlace(k, start, end);
    } else {
      assert BrandPlace(start, start, end);
    }
  }

  /** A file type is accepted exactly when it has its two fields, every brand is printable, and one of them is known. */
  lemma FileTypeExactly(bytes: Bytes, box: Box)
    requires box.end <= |bytes|
    ensures var start, end := box.payloadStart, box.end;
      FileType(bytes, box).Ok? <==>
        && start + 8 <= end && (forall k: nat :: BrandPlace(k, start, end) ==> Printable(bytes[k..k + 4]))
        && exists k: nat :: BrandPlace(k, start, end) && KnownBrand(bytes[k..k + 4])
  {
    var start, end := box.payloadStart, box.end;
    if start + 8 <= end {
      BrandsSupported(bytes, start, end);
      forall k: nat | BrandPlace(k, start, end)
        ensures KnownBrand(bytes[k..k + 4]) <==> SupportedBrand(bytes[k..k + 4])
      {
        KnownIsSupported(bytes[k..k + 4]);
      }
    }
    hide Printable, KnownBrand, SupportedBrand, BrandPlace;
  }

  /** The box types and the handler are the format's. */
  lemma KindsAreNamed()
    ensures Named(FTYP, "ftyp") && Named(MOOV, "moov") && Named(MVHD, "mvhd") && Named(TRAK, "trak") && Named(TKHD, "tkhd")
    ensures Named(MDIA, "mdia") && Named(HDLR, "hdlr") && Named(MINF, "minf") && Named(STBL, "stbl") && Named(STSD, "stsd")
    ensures Named(VIDE, "vide")
  {
  }
}
