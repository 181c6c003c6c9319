/**
 * The action vocabulary that src/main.rs matches on. It belongs to a later revision of
 * src/action.rs than the one shown: `Append` also names a direction, there are `Format` and
 * `Invert` steps, `Direction` has `Up`, and `Flag` has `Lanczos3`.
 */
module MainActions {
  import opened Common
  import Actions

  type Orientation = Actions.Orientation

  datatype Direction = Up | Down | Left | Right

  datatype Flag = Shrink | Vertical | Lanczos3

  /** The encodings of `image::ImageOutputFormat` that the program names. */
  datatype OutputFormat = PNG | JPEG(quality: u8) | GIF | ICO | BMP

  datatype Action =
    | Invert
    | Contrast(factor: F32)
    | Brightness(delta: i32)
    | Blur(sigma: F32)
    | Unsharpen(sigma: F32, threshold: i32)
    | Crop(x: u32, y: u32, width: u32, height: u32)
    | Rotate(direction: Direction)
    | Flip(orientation: Orientation)
    | Scale(width: u32, height: u32)
    | Append(filename: string, direction: Direction)
    | Format(format: OutputFormat)

  /** Up and Down stack the images; Left and Right put them side by side. */
  predicate IsVertical(d: Direction) {
    d == Up || d == Down
  }
}
