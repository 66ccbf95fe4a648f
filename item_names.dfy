/** The item-name check the menu applies before addItem: not empty, not
    only white space, and only letters and white space. */
module ItemNames {
  import opened Persistence

  /** C's isspace in the "C" locale: space, \t, \n, \v, \f, \r. */
  predicate IsSpace(c: char)
  {
    c == ' ' || '\t' <= c <= '\r'
  }

  /** C's isalpha in the "C" locale. */
  predicate IsAlpha(c: char)
  {
    'A' <= c <= 'Z' || 'a' <= c <= 'z'
  }

  predicate ValidName(s: string)
  {
    && s != []
    && (exists i :: 0 <= i < |s| && !IsSpace(s[i]))
    && (forall i :: 0 <= i < |s| ==> IsAlpha(s[i]) || IsSpace(s[i]))
  }

  /** The menu's verdict on a name, in the order it checks. */
  datatype NameCheck = NameOk | EmptyOrBlank | NotLetters

  method CheckName(s: string) returns (r: NameCheck)
    ensures r == NameOk <==> ValidName(s)
    ensures r == EmptyOrBlank <==> forall i :: 0 <= i < |s| ==> IsSpace(s[i])
    ensures r == NotLetters ==> exists i :: 0 <= i < |s| && !IsAlpha(s[i]) && !IsSpace(s[i])
  {
    var onlySpaces := true;
    var i := 0;
    while i < |s|
      invariant 0 <= i <= |s|
      invariant onlySpaces
      invariant forall j :: 0 <= j < i ==> IsSpace(s[j])
    {
      if !IsSpace(s[i]) {
        onlySpaces := false;
        break;
      }
      i := i + 1;
    }
    if |s| == 0 || onlySpaces {
      return EmptyOrBlank;
    }
    i := 0;
    while i < |s|
      invariant 0 <= i <= |s|
      invariant forall j :: 0 <= j < i ==> IsAlpha(s[j]) || IsSpace(s[j])
    {
      if !IsAlpha(s[i]) && !IsSpace(s[i]) {
        return NotLetters;
      }
      i := i + 1;
    }
    return NameOk;
  }

  /** A name the menu accepts survives saveToFile / loadFromFile: it cannot
      hold a marker or be an empty sentence, since those contain '-' or '.'. */
  lemma ValidNameStorable(s: string)
    requires ValidName(s)
    ensures Storable(s)
  {
    forall i: nat | i <= |s| ensures !OccursAt(s, InventoryMarker, i) && !OccursAt(s, ShippingMarker, i) {
      if i < |s| {
        assert IsAlpha(s[i]) || IsSpace(s[i]);
        assert InventoryMarker[0] == '-' && ShippingMarker[0] == '-';
        if i + |InventoryMarker| <= |s| {
          assert s[i..i + |InventoryMarker|][0] == s[i];
        }
        if i + |ShippingMarker| <= |s| {
          assert s[i..i + |ShippingMarker|][0] == s[i];
        }
      }
    }
    assert IsAlpha(s[|s| - 1]) || IsSpace(s[|s| - 1]);
  }
}
