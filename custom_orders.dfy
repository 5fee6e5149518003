/** The custom order request form of `src/pages/CustomOrders.tsx`: contact fields, a size
    choice, a usage description and up to five reference images. */
module CustomOrders {
  import opened Common

  const MaxImages := 5

  datatype FormData = FormData(name: string, email: string, phone: string, size: string,
                               usage: string, notes: string)

  /** The empty form; the size choice starts at "medium". */
  const Blank := FormData("", "", "", "medium", "", "")

  /** The fields a text input or text area names. */
  datatype Field = Name | Email | Phone | Usage | Notes

  function Get(d: FormData, f: Field): string
  {
    match f
    case Name => d.name
    case Email => d.email
    case Phone => d.phone
    case Usage => d.usage
    case Notes => d.notes
  }

  /** `handleInputChange`: the named field takes the value, every other field and the
      size stay. */
  function SetField(d: FormData, f: Field, value: string): (r: FormData)
    ensures Get(r, f) == value
    ensures forall g :: g != f ==> Get(r, g) == Get(d, g)
    ensures r.size == d.size
  {
    match f
    case Name => d.(name := value)
    case Email => d.(email := value)
    case Phone => d.(phone := value)
    case Usage => d.(usage := value)
    case Notes => d.(notes := value)
  }

  /** The form may be sent: name, email and usage are filled in. */
  predicate Complete(d: FormData)
  {
    d.name != "" && d.email != "" && d.usage != ""
  }

  /** `arr.slice(0, n)`. */
  function Take<T>(s: seq<T>, n: nat): (r: seq<T>)
    ensures |r| == if |s| <= n then |s| else n
    ensures r == s[..|r|]
  {
    if |s| <= n then s else s[..n]
  }

  /** `prev.filter((_, i) => i !== index)`: the image at that position goes, the others
      keep their order; a position outside the list removes nothing. */
  function RemoveAt<T>(s: seq<T>, index: int): (r: seq<T>)
    ensures !(0 <= index < |s|) ==> r == s
    ensures 0 <= index < |s| ==>
      && |r| == |s| - 1
      && (forall j :: 0 <= j < index ==> r[j] == s[j])
      && (forall j :: index <= j < |r| ==> r[j] == s[j + 1])
  {
    if 0 <= index < |s| then s[..index] + s[index + 1..] else s
  }

  class CustomOrderForm {
    var formData: FormData
    var referenceImages: seq<File>
    var isSubmitting: bool

    /** At most five reference images. */
    predicate Valid()
      reads this
    {
      |referenceImages| <= MaxImages
    }

    constructor()
      ensures formData == Blank && referenceImages == [] && !isSubmitting && Valid()
    {
      formData := Blank;
      referenceImages := [];
      isSubmitting := false;
    }

    method HandleInputChange(f: Field, value: string)
      modifies this`formData
      ensures formData == SetField(old(formData), f, value)
    {
      formData := SetField(formData, f, value);
    }

    /** The size radio group. */
    method SetSize(value: string)
      modifies this`formData
      ensures formData == old(formData).(size := value)
    {
      formData := formData.(size := value);
    }

    /** `handleFileChange`: a batch that would bring the total past five is refused whole;
        otherwise it is appended in order. */
    method HandleFileChange(files: seq<File>) returns (refused: bool)
      requires Valid()
      modifies this`referenceImages
      ensures Valid()
      ensures refused <==> |files| + |old(referenceImages)| > MaxImages
      ensures refused ==> referenceImages == old(referenceImages)
      ensures !refused ==> referenceImages == old(referenceImages) + files
    {
      if |files| + |referenceImages| > MaxImages {
        return true;
      }
      refused := false;
      referenceImages := Take(referenceImages + files, MaxImages);
    }

    method RemoveImage(index: int)
      requires Valid()
      modifies this`referenceImages
      ensures Valid()
      ensures referenceImages == RemoveAt(old(referenceImages), index)
    {
      referenceImages := RemoveAt(referenceImages, index);
    }

    /** `handleSubmit`: an incomplete form is refused and kept; a complete one is sent
        and the form starts over. */
    method HandleSubmit() returns (sent: bool)
      requires Valid()
      modifies this
      ensures Valid()
      ensures sent <==> Complete(old(formData))
      ensures !sent ==> formData == old(formData) && referenceImages == old(referenceImages)
      ensures sent ==> formData == Blank && referenceImages == []
      ensures isSubmitting == (if sent then false else old(isSubmitting))
    {
      if formData.name == "" || formData.email == "" || formData.usage == "" {
        return false;
      }
      isSubmitting := true;
      sent := true;
      formData := Blank;
      referenceImages := [];
      isSubmitting := false;
    }
  }
}
