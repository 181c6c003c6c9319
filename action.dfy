/**
 * The action vocabulary of src/action.rs as that file declares it: nine editing steps,
 * three rotation directions and two flags. This is what the argument parser produces.
 */
module Actions {
  import opened Common

  datatype Action =
    | Blur(sigma: F32)
    | Brightness(delta: i32)
    | Contrast(factor: F32)
    | Rotate(direction: Direction)
    | Crop(x: u32, y: u32, width: u32, height: u32)
    | Unsharpen(sigma: F32, threshold: i32)
    | Scale(width: u32, height: u32)
    | Append(filename: string)
    | Flip(orientation: Orientation)

  datatype Orientation = Vertical | Horizontal

  datatype Direction = Down | Left | Right

  /** Hashable and comparable, so usable as a map key. */
  datatype Flag = Shrink | Vertical
}
