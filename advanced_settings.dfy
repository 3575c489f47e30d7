/** The advanced settings panel: export the stored products and offers as an
    `.xshop` file, import such a file back into local storage, and change the
    admin password kept in local storage. The file download, the file reader
    and JSON text are not modelled: an export yields the file name and the
    JSON document, an import receives the file name and the parsed document
    (`None` when the text is not JSON). */
module AdvancedSettings {
  import opened Outcomes
  import opened Strings
  import opened Storage

  const ProductsKey := "products"
  const OffersKey := "offers"
  const PasswordKey := "admin_password"
  const Extension := ".xshop"
  const MinPasswordLength := 6

  // ---------------------------------------------------------------------------
  // Export

  /** `iso.split('T')[0]`: everything before the first 'T'. */
  function DatePart(iso: string): (r: string)
    ensures 'T' !in r
    ensures |r| <= |iso| && r == iso[..|r|]
    ensures |r| < |iso| ==> iso[|r|] == 'T'
  {
    if iso == [] || iso[0] == 'T' then []
    else [iso[0]] + DatePart(iso[1..])
  }

  /** `products-<date>.xshop`. */
  function ExportFileName(iso: string): (name: string)
    ensures EndsWith(name, Extension)
  {
    var name := "products-" + DatePart(iso) + Extension;
    assert name[|name| - |Extension|..] == Extension;
    name
  }

  /** A stored document, or `[]` when the key is missing. */
  function StoredOrEmpty(stored: Option<Json>): (r: Json)
    ensures stored.Some? ==> r == stored.value
    ensures stored.None? ==> r == JArr([])
  {
    match stored
    case Some(value) => value
    case None => JArr([])
  }

  /** The exported document: products, offers, the export time and version "1.0". */
  function Envelope(products: Json, offers: Json, exportDate: string): (env: Json)
    ensures env.JObj? && env.fields.Keys == {"products", "offers", "exportDate", "version"}
    ensures env.fields["products"] == products && env.fields["offers"] == offers
    ensures env.fields["exportDate"] == JStr(exportDate) && env.fields["version"] == JStr("1.0")
  {
    JObj(map["products" := products, "offers" := offers, "exportDate" := JStr(exportDate), "version" := JStr("1.0")])
  }

  // ---------------------------------------------------------------------------
  // Import

  datatype ImportFile = ImportFile(name: string, content: Option<Json>)

  datatype ImportOutcome = NoFile | WrongExtension | InvalidFormat | Imported

  /** The shape check: the document has a truthy `products` that is an array. */
  predicate ValidImport(content: Option<Json>)
  {
    content.Some? && Field(content.value, "products").Some? && Field(content.value, "products").value.JArr?
  }

  /** The storage after an accepted import: `products` is replaced, and
      `offers` too when the document has truthy offers. */
  function ApplyImport(entries: map<string, Json>, data: Json): (r: map<string, Json>)
    requires ValidImport(Some(data))
    ensures r.Keys == entries.Keys + {ProductsKey} + (if Field(data, "offers").Some? && Truthy(data.fields["offers"]) then {OffersKey} else {})
    ensures r[ProductsKey] == data.fields["products"]
    ensures forall k :: k in entries && k != ProductsKey && k != OffersKey ==> r[k] == entries[k]
    ensures Field(data, "offers").Some? && Truthy(data.fields["offers"]) ==> r[OffersKey] == data.fields["offers"]
    ensures !(Field(data, "offers").Some? && Truthy(data.fields["offers"])) && OffersKey in entries ==>
              r[OffersKey] == entries[OffersKey]
  {
    var withProducts := entries[ProductsKey := data.fields["products"]];
    match Field(data, "offers")
    case Some(offers) => if Truthy(offers) then withProducts[OffersKey := offers] else withProducts
    case None => withProducts
  }

  /** The order of the checks: a file, then the extension, then the shape. */
  function ImportResult(file: Option<ImportFile>): (r: ImportOutcome)
    ensures r == NoFile <==> file.None?
    ensures r == WrongExtension <==> file.Some? && !EndsWith(file.value.name, Extension)
    ensures r == Imported <==> file.Some? && EndsWith(file.value.name, Extension) && ValidImport(file.value.content)
  {
    if file.None? then NoFile
    else if !EndsWith(file.value.name, Extension) then WrongExtension
    else if !ValidImport(file.value.content) then InvalidFormat
    else Imported
  }

  /** Importing the file an export produced restores the stored products
      (an empty list when there were none) and, when they are truthy, the
      stored offers; no other key changes. */
  lemma ExportImportRoundTrip(entries: map<string, Json>, exportDate: string)
    requires ProductsKey in entries ==> entries[ProductsKey].JArr?
    ensures var products := StoredOrEmpty(if ProductsKey in entries then Some(entries[ProductsKey]) else None);
            var offers := StoredOrEmpty(if OffersKey in entries then Some(entries[OffersKey]) else None);
            var env := Envelope(products, offers, exportDate);
            var file := ImportFile(ExportFileName(exportDate), Some(env));
            && ImportResult(Some(file)) == Imported
            && ApplyImport(entries, env)[ProductsKey] == products
            && (OffersKey in entries ==> ApplyImport(entries, env)[OffersKey] == entries[OffersKey])
            && (ProductsKey in entries && (OffersKey in entries || !Truthy(offers)) ==> ApplyImport(entries, env) == entries)
  {
    var products := StoredOrEmpty(if ProductsKey in entries then Some(entries[ProductsKey]) else None);
    var offers := StoredOrEmpty(if OffersKey in entries then Some(entries[OffersKey]) else None);
    var env := Envelope(products, offers, exportDate);
    assert Field(env, "products") == Some(products);
    var r := ApplyImport(entries, env);
    if ProductsKey in entries && (OffersKey in entries || !Truthy(offers)) {
      assert r.Keys == entries.Keys;
      assert forall k :: k in r ==> r[k] == entries[k];
    }
  }

  // ---------------------------------------------------------------------------
  // Password

  datatype PasswordOutcome = Weak | Mismatch | Changed

  /** Too short (an empty password included) is reported before a mismatch. */
  function CheckPassword(newPassword: string, confirmPassword: string): (r: PasswordOutcome)
    ensures r == Weak <==> |newPassword| < MinPasswordLength
    ensures r == Mismatch <==> |newPassword| >= MinPasswordLength && newPassword != confirmPassword
    ensures r == Changed <==> |newPassword| >= MinPasswordLength && newPassword == confirmPassword
  {
    if newPassword == "" || |newPassword| < MinPasswordLength then Weak
    else if newPassword != confirmPassword then Mismatch
    else Changed
  }

  class SettingsPanel {
    var newPassword: string
    var confirmPassword: string

    constructor ()
      ensures newPassword == "" && confirmPassword == ""
    {
      newPassword := "";
      confirmPassword := "";
    }

    method SetPasswords(password: string, confirmation: string)
      modifies this
      ensures newPassword == password && confirmPassword == confirmation
    {
      newPassword := password;
      confirmPassword := confirmation;
    }

    /** `exportData` at time `now`: the document and the name the download gets. */
    method ExportData(storage: LocalStorage, now: string) returns (fileName: string, document: Json)
      ensures fileName == ExportFileName(now) && EndsWith(fileName, Extension)
      ensures document == Envelope(StoredOrEmpty(storage.GetItem(ProductsKey)), StoredOrEmpty(storage.GetItem(OffersKey)), now)
    {
      var products := StoredOrEmpty(storage.GetItem(ProductsKey));
      var offers := StoredOrEmpty(storage.GetItem(OffersKey));
      document := Envelope(products, offers, now);
      fileName := ExportFileName(now);
    }

    /** `handleImport`: only a well-formed `.xshop` document changes storage. */
    method HandleImport(storage: LocalStorage, file: Option<ImportFile>) returns (outcome: ImportOutcome)
      modifies storage
      ensures outcome == ImportResult(file)
      ensures outcome == Imported ==> storage.entries == ApplyImport(old(storage.entries), file.value.content.value)
      ensures outcome != Imported ==> storage.entries == old(storage.entries)
    {
      if file.None? {
        return NoFile;
      }
      if !EndsWith(file.value.name, Extension) {
        return WrongExtension;
      }
      var content := file.value.content;
      if !ValidImport(content) {
        return InvalidFormat;
      }
      var data := content.value;
      storage.SetItem(ProductsKey, data.fields["products"]);
      if Field(data, "offers").Some? && Truthy(data.fields["offers"]) {
        storage.SetItem(OffersKey, data.fields["offers"]);
      }
      outcome := Imported;
    }

    /** `changePassword`: on success the password is stored and both fields are cleared. */
    method ChangePassword(storage: LocalStorage) returns (outcome: PasswordOutcome)
      modifies this, storage
      ensures outcome == CheckPassword(old(newPassword), old(confirmPassword))
      ensures outcome == Changed ==>
                storage.entries == old(storage.entries)[PasswordKey := JStr(old(newPassword))]
                && newPassword == "" && confirmPassword == ""
      ensures outcome != Changed ==>
                storage.entries == old(storage.entries)
                && newPassword == old(newPassword) && confirmPassword == old(confirmPassword)
    {
      if newPassword == "" || |newPassword| < MinPasswordLength {
        return Weak;
      }
      if newPassword != confirmPassword {
        return Mismatch;
      }
      storage.SetItem(PasswordKey, JStr(newPassword));
      newPassword := "";
      confirmPassword := "";
      outcome := Changed;
    }
  }
}
