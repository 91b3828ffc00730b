/** The media host as the handlers see it (`uploadOnCloudinary` in src/utils/cloudinary.js). */
module Media {

  import opened Errors

  /** One call of `uploadOnCloudinary(localFilePath)`: the host's response, the
      `null` the helper returns after swallowing a failure, or an exception that
      escapes the helper (its own `fs.unlinkSync` failing). */
  datatype Upload =
    | Uploaded(url: string, publicId: string, duration: int)
    | NoResult
    | Threw(error: Failure)
}
