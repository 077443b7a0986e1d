/** The admin product form (src/components/admin/AdminProductForm.tsx): its
    initial state, validation, the image-file acceptance rule, image removal
    and the payload a submission sends. `parseFloat`, `Number.toString`, the
    object URL of a chosen file and the `FileReader` result are parameters. */
module ProductForm {
  import opened Wrappers
  import opened Strings
  import opened Backend

  const NameRequired: string := "Product name is required"
  const PriceRequired: string := "Price is required"
  const PriceNotPositive: string := "Price must be a positive number"
  const CurrencyRequired: string := "Currency is required"
  const InvalidImage: string := "Please select a valid image file"
  const ImageTooLarge: string := "Image size must be less than 5MB"

  /** The largest accepted image, in bytes (5 MiB). */
  const MaxImageBytes: nat := 5 * 1024 * 1024

  datatype Mode = Create | Edit

  /** The text fields and the switch, as typed. */
  datatype FormData = FormData(
    name: string,
    description: string,
    price: string,
    currency: string,
    category: string,
    imageUrl: string,
    inStock: bool)

  datatype File = File(mimeType: string, size: nat)

  datatype FormState = FormState(data: FormData, imageFile: Option<File>, imagePreview: string)

  /** One message per invalid field; `None` means the field passed. */
  datatype FormErrors = FormErrors(name: Option<string>, price: Option<string>, currency: Option<string>)

  /** The state the form starts in; `priceText` renders a price as `toString` does. */
  function InitialState(product: Option<Product>, priceText: real -> string): (r: FormState)
    ensures product.None? ==>
      r == FormState(FormData("", "", "", "USD", "Other", "", true), None, "")
    ensures product.Some? ==>
      var p := product.value;
      && r.data.name == p.name && r.data.description == p.description
      && r.data.price == priceText(p.price) && r.data.inStock == p.inStock
      && r.data.imageUrl == p.imageUrl && r.imagePreview == p.imageUrl
      && r.data.currency == (if p.currency == [] then "USD" else p.currency)
      && r.data.category == (if p.category == [] then "Other" else p.category)
    ensures r.imageFile.None? && r.data.currency != [] && r.data.category != []
  {
    match product
    case None => FormState(FormData("", "", "", "USD", "Other", "", true), None, "")
    case Some(p) =>
      FormState(
        FormData(OrElse(p.name, ""), OrElse(p.description, ""), OrElse(priceText(p.price), ""),
                 OrElse(p.currency, "USD"), OrElse(p.category, "Other"), OrElse(p.imageUrl, ""), p.inStock),
        None,
        OrElse(p.imageUrl, ""))
  }

  /** `validateForm`. Category, description and image URL are never checked. */
  function Validate(data: FormData, parseFloat: string -> Option<real>): (r: FormErrors)
    ensures r.name.Some? <==> Blank(data.name)
    ensures r.name.Some? ==> r.name.value == NameRequired
    ensures r.price == Some(PriceRequired) <==> Blank(data.price)
    ensures r.price == Some(PriceNotPositive) <==>
      !Blank(data.price) && (parseFloat(data.price).None? || parseFloat(data.price).value <= 0.0)
    ensures r.price.Some? ==> r.price.value in {PriceRequired, PriceNotPositive}
    ensures r.currency.Some? <==> data.currency == []
    ensures r.currency.Some? ==> r.currency.value == CurrencyRequired
  {
    FormErrors(
      if Blank(data.name) then Some(NameRequired) else None,
      if Blank(data.price) then Some(PriceRequired)
      else
        var n := parseFloat(data.price);
        if n.None? || n.value <= 0.0 then Some(PriceNotPositive) else None,
      if data.currency == [] then Some(CurrencyRequired) else None)
  }

  predicate NoErrors(e: FormErrors) {
    e.name.None? && e.price.None? && e.currency.None?
  }

  /** What a passing form guarantees to the submission. */
  predicate Sendable(data: FormData, parseFloat: string -> Option<real>) {
    && !Blank(data.name) && !Blank(data.price) && data.currency != []
    && parseFloat(data.price).Some? && parseFloat(data.price).value > 0.0
  }

  /** A form passes validation exactly when its name is not blank, its price
      is not blank and parses to a positive number, and a currency is chosen. */
  lemma ValidIff(data: FormData, parseFloat: string -> Option<real>)
    ensures NoErrors(Validate(data, parseFloat)) <==> Sendable(data, parseFloat)
  {
  }

  /** `handleImageFileChange`: the new state and the toast shown, if any. */
  function ChooseImage(s: FormState, file: Option<File>, objectUrl: string): (r: (FormState, Option<string>))
    ensures r.0 != s ==> file.Some? && r.0 == s.(imageFile := file, imagePreview := objectUrl)
    ensures file.Some? && !StartsWith(file.value.mimeType, "image/") ==> r == (s, Some(InvalidImage))
    ensures file.Some? && StartsWith(file.value.mimeType, "image/") && file.value.size > MaxImageBytes ==>
      r == (s, Some(ImageTooLarge))
    ensures file.None? ==> r == (s, None)
  {
    match file
    case None => (s, None)
    case Some(f) =>
      if !StartsWith(f.mimeType, "image/") then (s, Some(InvalidImage))
      else if f.size > MaxImageBytes then (s, Some(ImageTooLarge))
      else (s.(imageFile := file, imagePreview := objectUrl), None)
  }

  /** Acceptance as a plain rule: an image type of at most 5 MiB, exactly
      5 MiB included. */
  predicate AcceptsImage(f: File) {
    StartsWith(f.mimeType, "image/") && f.size <= MaxImageBytes
  }

  lemma ChooseImageAccepts(s: FormState, f: File, objectUrl: string)
    ensures ChooseImage(s, Some(f), objectUrl).1.None? <==> AcceptsImage(f)
    ensures AcceptsImage(f) ==> ChooseImage(s, Some(f), objectUrl).0.imageFile == Some(f)
    ensures !AcceptsImage(f) ==> ChooseImage(s, Some(f), objectUrl).0 == s
  {
  }

  lemma FiveMebibytesAccepted(s: FormState, objectUrl: string)
    ensures ChooseImage(s, Some(File("image/png", 5242880)), objectUrl).1.None?
    ensures ChooseImage(s, Some(File("image/png", 5242881)), objectUrl).1 == Some(ImageTooLarge)
  {
    assert StartsWith("image/png", "image/");
  }

  /** `handleRemoveImage`: clears the file, the preview and the image URL. */
  function RemoveImage(s: FormState): (r: FormState)
    ensures r.imageFile.None? && r.imagePreview == "" && r.data.imageUrl == ""
    ensures r.data == s.data.(imageUrl := "")
  {
    FormState(s.data.(imageUrl := ""), None, "")
  }

  /** The product fields sent to the canister. */
  datatype Payload = Payload(
    name: string,
    description: string,
    price: real,
    currency: string,
    category: string,
    imageUrl: string,
    inStock: bool)

  datatype Submission =
    | Rejected(errors: FormErrors)
      /** The chosen file could not be read; the toast names the mode. */
    | Failed(toast: string)
    | CreateCall(payload: Payload)
    | UpdateCall(payload: Payload, id: nat)
      /** Edit mode without a product: nothing is sent, yet `onSuccess` runs. */
    | NothingSent

  /** The payload a submission sends: only name and description are
      trimmed, and the price is the parsed number. */
  function MakePayload(data: FormData, parseFloat: string -> Option<real>, imageUrl: string): (p: Payload)
    ensures p.name == Trim(data.name) && p.description == Trim(data.description)
    ensures p.currency == data.currency && p.category == data.category
    ensures p.inStock == data.inStock && p.imageUrl == imageUrl
    ensures Sendable(data, parseFloat) ==>
      p.name != [] && p.currency != [] && parseFloat(data.price) == Some(p.price) && p.price > 0.0
  {
    Payload(Trim(data.name), Trim(data.description), parseFloat(data.price).GetOr(0.0),
            data.currency, data.category, imageUrl, data.inStock)
  }

  /** `handleSubmit` up to the mutation call. `fileRead` is what reading the
      chosen file as a data URL produced (`None` when the reader failed). */
  function Submit(mode: Mode, product: Option<Product>, s: FormState,
                  parseFloat: string -> Option<real>, fileRead: Option<string>): (r: Submission)
    ensures r.Rejected? <==> !NoErrors(Validate(s.data, parseFloat))
    ensures r.Rejected? ==> r.errors == Validate(s.data, parseFloat)
    ensures !r.Rejected? ==> Sendable(s.data, parseFloat) && r == Send(mode, product, s, parseFloat, fileRead)
  {
    var errors := Validate(s.data, parseFloat);
    ValidIff(s.data, parseFloat);
    if !NoErrors(errors) then Rejected(errors) else Send(mode, product, s, parseFloat, fileRead)
  }

  /** The part of `handleSubmit` after validation passed (`Submit` only
      calls it for a form that passed). */
  function Send(mode: Mode, product: Option<Product>, s: FormState,
                parseFloat: string -> Option<real>, fileRead: Option<string>): (r: Submission)
    ensures !r.Rejected?
    ensures r.Failed? <==> s.imageFile.Some? && fileRead.None?
    ensures r.Failed? ==> r.toast == if mode.Create? then "Failed to create product" else "Failed to update product"
    ensures r.CreateCall? <==> mode.Create? && (s.imageFile.None? || fileRead.Some?)
    ensures r.UpdateCall? <==> mode.Edit? && product.Some? && (s.imageFile.None? || fileRead.Some?)
    ensures r.UpdateCall? ==> r.id == product.value.id
    ensures r.NothingSent? <==> mode.Edit? && product.None? && (s.imageFile.None? || fileRead.Some?)
    ensures r.CreateCall? || r.UpdateCall? ==>
      r.payload == MakePayload(s.data, parseFloat, if s.imageFile.Some? then fileRead.value else s.data.imageUrl)
  {
    if s.imageFile.Some? && fileRead.None? then
      Failed(if mode.Create? then "Failed to create product" else "Failed to update product")
    else
      var payload := MakePayload(s.data, parseFloat, if s.imageFile.Some? then fileRead.value else s.data.imageUrl);
      if mode.Create? then CreateCall(payload)
      else if product.Some? then UpdateCall(payload, product.value.id)
      else NothingSent
  }

  /** Editing a product without touching the form sends that product back
      under its own id, with the price re-read from its own text and the
      name trimmed, when the name and the price text start with a visible
      character and the price text parses back to the positive price. */
  lemma UntouchedEditSendsSameId(p: Product, priceText: real -> string, parseFloat: string -> Option<real>)
    requires parseFloat(priceText(p.price)) == Some(p.price) && p.price > 0.0
    requires p.name != [] && !IsSpace(p.name[0])
    requires priceText(p.price) != [] && !IsSpace(priceText(p.price)[0])
    ensures var r := Submit(Edit, Some(p), InitialState(Some(p), priceText), parseFloat, None);
      r.UpdateCall? && r.id == p.id && r.payload.price == p.price && r.payload.name == Trim(p.name)
      && r.payload.imageUrl == p.imageUrl && r.payload.inStock == p.inStock
  {
    var s := InitialState(Some(p), priceText);
    assert s.data.name == p.name && s.data.price == priceText(p.price) && s.data.currency != [];
    assert s.imageFile.None?;
    assert !Blank(s.data.name) && !Blank(s.data.price);
    var e := Validate(s.data, parseFloat);
    assert e.name.None? && e.price.None? && e.currency.None?;
    var r := Submit(Edit, Some(p), s, parseFloat, None);
    assert r.UpdateCall?;
    assert r.payload == MakePayload(s.data, parseFloat, s.data.imageUrl);
  }
}
