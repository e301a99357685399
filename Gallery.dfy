/** The gallery section's full-screen viewer: at most one selected image,
    replaced by a click on another thumbnail and cleared by the backdrop or
    the close button. */
module Gallery {

  datatype GalleryImage = GalleryImage(id: nat, src: string, alt: string)

  const GalleryImages: seq<GalleryImage> := [
    GalleryImage(1, "https://oejgkvftpbinliuopipr.supabase.co/storage/v1/object/public/assets/user_347995964/edit-photo-1770327376-7708.jpg?",
                 "BAZA Barbershop - работа мастера"),
    GalleryImage(2, "https://oejgkvftpbinliuopipr.supabase.co/storage/v1/object/public/assets/user_347995964/edit-photo-1770327377-6711.jpg?",
                 "BAZA Barbershop - стиль и атмосфера"),
    GalleryImage(3, "https://oejgkvftpbinliuopipr.supabase.co/storage/v1/object/public/assets/user_347995964/edit-photo-1770327378-2135.jpg?",
                 "BAZA Barbershop - детали работы")
  ]

  /** The nullable selectedImage state. */
  datatype Selection = NoImage | Selected(image: GalleryImage)

  class GallerySection {
    var selectedImage: Selection

    /** Only a gallery image can be on display. */
    predicate Valid()
      reads this
    {
      selectedImage.Selected? ==> selectedImage.image in GalleryImages
    }

    constructor ()
      ensures Valid() && selectedImage == NoImage
    {
      selectedImage := NoImage;
    }

    /** A click on a thumbnail, which are drawn one per gallery image: the
        overlay shows that image, whatever was shown before. */
    method Select(image: GalleryImage)
      requires image in GalleryImages
      modifies this
      ensures Valid() && selectedImage == Selected(image)
    {
      selectedImage := Selected(image);
    }

    /** A click on the backdrop or on the close button; a click on the
        picture itself stops propagating and does not reach here. */
    method Dismiss()
      modifies this
      ensures Valid() && selectedImage == NoImage
    {
      selectedImage := NoImage;
    }
  }

  /** Selecting one image, dismissing it and selecting another shows exactly
      the second one. */
  method SelectDismissSelect(gallery: GallerySection, first: GalleryImage, second: GalleryImage)
    requires first in GalleryImages && second in GalleryImages
    modifies gallery
    ensures gallery.Valid() && gallery.selectedImage == Selected(second)
  {
    gallery.Select(first);
    gallery.Dismiss();
    gallery.Select(second);
  }
}
